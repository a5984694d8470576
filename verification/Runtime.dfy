/**
 Fan-out: one event is encoded for each recipient's dialect, with a cache per
 event, and queued in the recipients' bounded mailboxes. Other threads run between
 the recipients.
 */
module Runtime {
  import opened Wrappers
  import opened Text
  import opened Model
  import opened State
  import NetworkCore

  type WireFrame = Bytes

  datatype EncodeContext = EncodeContext(
    connectionId: ConnectionId, recipient: Option<ClientPresence>, serverName: Bytes)

  /** The text of an encoding error is only logged. */
  type Encoding = Result<seq<WireFrame>, ()>

  datatype Backend = Backend(encode: (EncodeContext, Event) -> Encoding, recipientSpecific: Event -> bool)

  datatype Outbound = Frames(frames: seq<WireFrame>) | Close

  /** The sending side of a connection: its mailbox and its cancellation flag.
      `receiverGone` is set once the writer has dropped the receiving side. */
  datatype Handle = Handle(dialect: ProtocolDialect, mailbox: seq<Outbound>, receiverGone: bool, cancelled: bool)

  type Connections = map<ConnectionId, Handle>

  datatype Environment = Environment(
    capacity: nat,
    serverName: Bytes,
    /** The registry holds exactly one backend for a dialect. */
    backends: ProtocolDialect -> Backend)
  {
    function Context(id: ConnectionId, presence: Option<ClientPresence>): EncodeContext {
      EncodeContext(id, presence, serverName)
    }

    ghost predicate ContextFree() {
      forall dialect :: BackendIsContextFree(backends(dialect), serverName)
    }
  }

  /** What a backend promises by not calling an event recipient-specific: a
      successful encoding does not depend on the recipient. */
  ghost predicate BackendIsContextFree(backend: Backend, serverName: Bytes) {
    forall a: EncodeContext, b: EncodeContext, event: Event ::
      a.serverName == serverName && b.serverName == serverName
      && !backend.recipientSpecific(event) && backend.encode(a, event).Ok? ==>
        backend.encode(b, event) == backend.encode(a, event)
  }

  // ---------------------------------------------------------------- One recipient

  /** `try_send`: a message that cannot be queued cancels the connection. */
  function TrySend(capacity: nat, handle: Handle, message: Outbound): Handle {
    if handle.receiverGone || |handle.mailbox| >= capacity then handle.(cancelled := true)
    else handle.(mailbox := handle.mailbox + [message])
  }

  function Queue(capacity: nat, handle: Handle, encoding: Encoding): Handle {
    match encoding
    case Ok(frames) => TrySend(capacity, handle, Frames(frames))
    case Err(_) => handle.(cancelled := true)
  }

  // ---------------------------------------------------------------- Without a cache

  /** What surrounds the service of one recipient: what other threads do to the
      connections just before, and what the network answers about the recipient. */
  datatype Moment = Moment(others: Connections -> Connections, presence: Option<ClientPresence>)

  /** The moments of one delivery, and those of a whole dispatch. */
  type Moments = nat -> Moment
  type Schedule = nat -> Moments

  /** One recipient, encoded for on its own. */
  function DeliverOne(
    env: Environment, connections: Connections, moment: Moment, id: ConnectionId, event: Event): Connections
  {
    var before := moment.others(connections);
    if id !in before then before
    else
      var encoding := env.backends(before[id].dialect).encode(env.Context(id, moment.presence), event);
      before[id := Queue(env.capacity, before[id], encoding)]
  }

  /** Encodes the event separately for every recipient. */
  function Deliver(
    env: Environment, moments: Moments, connections: Connections, recipients: seq<ConnectionId>, event: Event
  ): Connections
    decreases |recipients|
  {
    if recipients == [] then connections else
    var n := |recipients| - 1;
    DeliverOne(env, Deliver(env, moments, connections, recipients[..n], event), moments(n), recipients[n], event)
  }

  function DeliverAll(
    env: Environment, schedule: Schedule, connections: Connections, deliveries: seq<NetworkCore.OrderedDelivery>
  ): Connections
    decreases |deliveries|
  {
    if deliveries == [] then connections else
    var n := |deliveries| - 1;
    Deliver(
      env, schedule(n), DeliverAll(env, schedule, connections, deliveries[..n]),
      deliveries[n].recipients, deliveries[n].event)
  }

  function AfterClose(
    env: Environment, last: Moment, connections: Connections, close: Option<CloseConnection>): Connections
  {
    if close.None? then connections else
    var id := close.value.connectionId;
    var before := last.others(connections);
    if id in before then before[id := TrySend(env.capacity, before[id], Close)] else before
  }

  /** The connections after `effects` are dispatched without a cache. */
  function Dispatched(
    env: Environment, schedule: Schedule, connections: Connections, effects: NetworkCore.OrderedEffects): Connections
  {
    var n := |effects.deliveries|;
    AfterClose(env, schedule(n)(0), DeliverAll(env, schedule, connections, effects.deliveries), effects.close)
  }

  /** Meanwhile no other thread opens, or none takes away, the connection `id`. */
  ghost predicate NeverOpens(schedule: Schedule, id: ConnectionId) {
    forall i, k, connections :: id in schedule(i)(k).others(connections) ==> id in connections
  }

  ghost predicate NeverTakes(schedule: Schedule, id: ConnectionId) {
    forall i, k, connections :: id in connections ==> id in schedule(i)(k).others(connections)
  }

  lemma {:induction false} DeliverKeepsIds(
    env: Environment, schedule: Schedule, i: nat, connections: Connections, recipients: seq<ConnectionId>, event: Event,
    id: ConnectionId)
    ensures var after := Deliver(env, schedule(i), connections, recipients, event);
            && (NeverOpens(schedule, id) && id in after ==> id in connections)
            && (NeverTakes(schedule, id) && id in connections ==> id in after)
    decreases |recipients|
  {
    if recipients != [] {
      DeliverKeepsIds(env, schedule, i, connections, recipients[..|recipients| - 1], event, id);
    }
  }

  lemma {:induction false} DeliverAllKeepsIds(
    env: Environment, schedule: Schedule, connections: Connections, deliveries: seq<NetworkCore.OrderedDelivery>,
    id: ConnectionId)
    ensures var after := DeliverAll(env, schedule, connections, deliveries);
            && (NeverOpens(schedule, id) && id in after ==> id in connections)
            && (NeverTakes(schedule, id) && id in connections ==> id in after)
    decreases |deliveries|
  {
    if deliveries != [] {
      var n := |deliveries| - 1;
      DeliverAllKeepsIds(env, schedule, connections, deliveries[..n], id);
      DeliverKeepsIds(
        env, schedule, n, DeliverAll(env, schedule, connections, deliveries[..n]),
        deliveries[n].recipients, deliveries[n].event, id);
    }
  }

  /** Dispatching itself neither opens nor takes away a connection. */
  lemma DispatchKeepsIds(
    env: Environment, schedule: Schedule, connections: Connections, effects: NetworkCore.OrderedEffects,
    id: ConnectionId)
    ensures var after := Dispatched(env, schedule, connections, effects);
            && (NeverOpens(schedule, id) && id in after ==> id in connections)
            && (NeverTakes(schedule, id) && id in connections ==> id in after)
  {
    DeliverAllKeepsIds(env, schedule, connections, effects.deliveries, id);
  }

  // ---------------------------------------------------------------- With the cache

  type Cache = map<ProtocolDialect, seq<WireFrame>>

  function Lookup(cache: Cache, dialect: ProtocolDialect): Option<seq<WireFrame>> {
    if dialect in cache then Some(cache[dialect]) else None
  }

  /** The encoding a recipient is served with, what the cache holds for its
      dialect afterwards, and whether the encoder had to be called. */
  datatype Choice = Choice(encoding: Encoding, cached: Option<seq<WireFrame>>, called: bool)

  function Choose(backend: Backend, cached: Option<seq<WireFrame>>, context: EncodeContext, event: Event): Choice {
    if backend.recipientSpecific(event) then Choice(backend.encode(context, event), cached, true)
    else if cached.Some? then Choice(Ok(cached.value), cached, false)
    else
      var encoding := backend.encode(context, event);
      Choice(encoding, if encoding.Ok? then Some(encoding.value) else None, true)
  }

  function Remember(cache: Cache, dialect: ProtocolDialect, cached: Option<seq<WireFrame>>): Cache {
    if cached.Some? then cache[dialect := cached.value] else cache
  }

  /** A call of an encoder, and an encoding offered to a recipient's mailbox. */
  datatype Call = Call(dialect: ProtocolDialect, context: EncodeContext, event: Event)
  datatype Offer = Offer(dialect: ProtocolDialect, context: EncodeContext, encoding: Encoding)

  datatype Fanout = Fanout(connections: Connections, cache: Cache, offers: seq<Offer>, calls: seq<Call>)

  /** One recipient of the cached fan-out. */
  function Serve(env: Environment, f: Fanout, moment: Moment, id: ConnectionId, event: Event): Fanout {
    var before := moment.others(f.connections);
    if id !in before then f.(connections := before) else
    var dialect := before[id].dialect;
    var context := env.Context(id, moment.presence);
    var choice := Choose(env.backends(dialect), Lookup(f.cache, dialect), context, event);
    Fanout(
      before[id := Queue(env.capacity, before[id], choice.encoding)],
      Remember(f.cache, dialect, choice.cached),
      f.offers + [Offer(dialect, context, choice.encoding)],
      if choice.called then f.calls + [Call(dialect, context, event)] else f.calls)
  }

  function CachedDeliver(
    env: Environment, moments: Moments, connections: Connections, recipients: seq<ConnectionId>, event: Event): Fanout
    decreases |recipients|
  {
    if recipients == [] then Fanout(connections, map[], [], []) else
    var n := |recipients| - 1;
    Serve(env, CachedDeliver(env, moments, connections, recipients[..n], event), moments(n), recipients[n], event)
  }

  /** What is offered and called for one recipient is appended. */
  lemma ServeAppends(env: Environment, f: Fanout, moment: Moment, id: ConnectionId, event: Event)
    ensures var g := Serve(env, Fanout(f.connections, f.cache, [], []), moment, id, event);
            Serve(env, f, moment, id, event) == Fanout(g.connections, g.cache, f.offers + g.offers, f.calls + g.calls)
  {
    hide Choose;
    hide Queue;
    hide Lookup;
    hide Remember;
  }

  lemma ServeNext(
    env: Environment, moments: Moments, connections: Connections, recipients: seq<ConnectionId>, event: Event, i: nat)
    requires i < |recipients|
    ensures CachedDeliver(env, moments, connections, recipients[..i + 1], event) ==
            var before := CachedDeliver(env, moments, connections, recipients[..i], event);
            Serve(env, before, moments(i), recipients[i], event)
  {
    hide Serve;
    assert recipients[..i + 1][..i] == recipients[..i];
  }

  /** The calls of the encoders in a whole dispatch. */
  function CallsOf(
    env: Environment, schedule: Schedule, connections: Connections, deliveries: seq<NetworkCore.OrderedDelivery>
  ): seq<Call>
    decreases |deliveries|
  {
    if deliveries == [] then [] else
    var n := |deliveries| - 1;
    CallsOf(env, schedule, connections, deliveries[..n])
    + CachedDeliver(
        env, schedule(n), DeliverAll(env, schedule, connections, deliveries[..n]),
        deliveries[n].recipients, deliveries[n].event).calls
  }

  lemma DispatchNext(
    env: Environment, schedule: Schedule, connections: Connections, deliveries: seq<NetworkCore.OrderedDelivery>,
    i: nat)
    requires i < |deliveries|
    ensures var before := DeliverAll(env, schedule, connections, deliveries[..i]);
            var d := deliveries[i];
            && DeliverAll(env, schedule, connections, deliveries[..i + 1])
               == Deliver(env, schedule(i), before, d.recipients, d.event)
            && CallsOf(env, schedule, connections, deliveries[..i + 1])
               == CallsOf(env, schedule, connections, deliveries[..i])
                  + CachedDeliver(env, schedule(i), before, d.recipients, d.event).calls
  {
    hide Deliver;
    hide CachedDeliver;
    assert deliveries[..i + 1][..i] == deliveries[..i];
  }

  // ---------------------------------------------------------------- Encoding once

  /** Once an event is encoded for a dialect, it is not encoded for that dialect
      again, unless the backend calls it recipient-specific. */
  ghost predicate EncodedOnce(env: Environment, event: Event, calls: seq<Call>) {
    forall i, j :: 0 <= i < j < |calls| && calls[i].dialect == calls[j].dialect
                   && !env.backends(calls[i].dialect).recipientSpecific(event) ==>
      env.backends(calls[i].dialect).encode(calls[i].context, event).Err?
  }

  lemma {:induction false} EncodesOncePerDialect(
    env: Environment, moments: Moments, connections: Connections, recipients: seq<ConnectionId>, event: Event)
    ensures var f := CachedDeliver(env, moments, connections, recipients, event);
            && EncodedOnce(env, event, f.calls)
            && (forall i :: 0 <= i < |f.calls| ==> f.calls[i].event == event)
            && (forall i :: 0 <= i < |f.calls| ==>
                  env.backends(f.calls[i].dialect).recipientSpecific(event)
                  || env.backends(f.calls[i].dialect).encode(f.calls[i].context, event).Err?
                  || f.calls[i].dialect in f.cache)
    decreases |recipients|
  {
    if recipients != [] {
      EncodesOncePerDialect(env, moments, connections, recipients[..|recipients| - 1], event);
    }
  }

  // ---------------------------------------------------------------- One dialect of the fan-out

  /** The encodings that recipients of one dialect with these contexts get from
      a single cached value, and what the cache then holds. */
  function CacheAfter(backend: Backend, event: Event, contexts: seq<EncodeContext>): Option<seq<WireFrame>>
    decreases |contexts|
  {
    if contexts == [] then None else
    var n := |contexts| - 1;
    Choose(backend, CacheAfter(backend, event, contexts[..n]), contexts[n], event).cached
  }

  function CachedRun(backend: Backend, event: Event, contexts: seq<EncodeContext>): seq<Encoding>
    decreases |contexts|
  {
    if contexts == [] then [] else
    var n := |contexts| - 1;
    CachedRun(backend, event, contexts[..n])
    + [Choose(backend, CacheAfter(backend, event, contexts[..n]), contexts[n], event).encoding]
  }

  function ContextsTo(offers: seq<Offer>, dialect: ProtocolDialect): seq<EncodeContext>
    decreases |offers|
  {
    if offers == [] then [] else
    var n := |offers| - 1;
    ContextsTo(offers[..n], dialect) + if offers[n].dialect == dialect then [offers[n].context] else []
  }

  function EncodingsTo(offers: seq<Offer>, dialect: ProtocolDialect): seq<Encoding>
    decreases |offers|
  {
    if offers == [] then [] else
    var n := |offers| - 1;
    EncodingsTo(offers[..n], dialect) + if offers[n].dialect == dialect then [offers[n].encoding] else []
  }

  lemma OneMoreOffer(offers: seq<Offer>, o: Offer, dialect: ProtocolDialect)
    ensures ContextsTo(offers + [o], dialect)
            == ContextsTo(offers, dialect) + if o.dialect == dialect then [o.context] else []
    ensures EncodingsTo(offers + [o], dialect)
            == EncodingsTo(offers, dialect) + if o.dialect == dialect then [o.encoding] else []
  {
    assert (offers + [o])[..|offers|] == offers;
  }

  lemma OneMoreContext(backend: Backend, event: Event, contexts: seq<EncodeContext>, context: EncodeContext)
    ensures var choice := Choose(backend, CacheAfter(backend, event, contexts), context, event);
            && CachedRun(backend, event, contexts + [context])
               == CachedRun(backend, event, contexts) + [choice.encoding]
            && CacheAfter(backend, event, contexts + [context]) == choice.cached
  {
    assert (contexts + [context])[..|contexts|] == contexts;
  }

  /** What one dialect's recipients have been offered, and its cached value, are
      those of a cache for this dialect alone. */
  ghost predicate RunsItsCache(env: Environment, f: Fanout, event: Event, dialect: ProtocolDialect) {
    var contexts := ContextsTo(f.offers, dialect);
    && EncodingsTo(f.offers, dialect) == CachedRun(env.backends(dialect), event, contexts)
    && Lookup(f.cache, dialect) == CacheAfter(env.backends(dialect), event, contexts)
  }

  lemma ServeRunsItsCache(
    env: Environment, f: Fanout, moment: Moment, id: ConnectionId, event: Event, dialect: ProtocolDialect)
    requires RunsItsCache(env, f, event, dialect)
    ensures RunsItsCache(env, Serve(env, f, moment, id, event), event, dialect)
  {
    hide Queue;
    hide ContextsTo;
    hide EncodingsTo;
    hide CachedRun;
    hide CacheAfter;
    var g := Serve(env, f, moment, id, event);
    if g.offers != f.offers {
      var last := g.offers[|f.offers|];
      assert g.offers == f.offers + [last];
      OneMoreOffer(f.offers, last, dialect);
      if last.dialect == dialect {
        OneMoreContext(env.backends(dialect), event, ContextsTo(f.offers, dialect), last.context);
      } else {
        assert ContextsTo(g.offers, dialect) == ContextsTo(f.offers, dialect);
      }
    }
  }

  /** The dialects do not disturb each other: what the recipients of one dialect
      are offered is what a cache for this dialect alone would give. */
  lemma {:induction false} FanoutRunsOneCachePerDialect(
    env: Environment, moments: Moments, connections: Connections, recipients: seq<ConnectionId>, event: Event,
    dialect: ProtocolDialect)
    ensures RunsItsCache(env, CachedDeliver(env, moments, connections, recipients, event), event, dialect)
    decreases |recipients|
  {
    hide Serve;
    if recipients != [] {
      var n := |recipients| - 1;
      FanoutRunsOneCachePerDialect(env, moments, connections, recipients[..n], event, dialect);
      ServeRunsItsCache(
        env, CachedDeliver(env, moments, connections, recipients[..n], event), moments(n), recipients[n], event,
        dialect);
    }
  }

  // ---------------------------------------------------------------- Soundness of the cache

  /** Every recipient is offered what encoding for it alone gives. */
  ghost predicate OffersAreOwn(env: Environment, event: Event, offers: seq<Offer>) {
    forall i :: 0 <= i < |offers| ==>
      offers[i].encoding == env.backends(offers[i].dialect).encode(offers[i].context, event)
  }

  /** What is cached came out of the encoder, for some recipient. */
  ghost predicate CacheOk(env: Environment, event: Event, cache: Cache) {
    forall dialect :: dialect in cache ==>
      && !env.backends(dialect).recipientSpecific(event)
      && exists c: EncodeContext ::
           c.serverName == env.serverName && env.backends(dialect).encode(c, event) == Ok(cache[dialect])
  }

  /** A choice from a sound cache is the recipient's own encoding, and leaves
      the cache sound. */
  lemma ChoiceIsOwn(env: Environment, event: Event, cache: Cache, dialect: ProtocolDialect, context: EncodeContext)
    requires env.ContextFree() && CacheOk(env, event, cache) && context.serverName == env.serverName
    ensures var choice := Choose(env.backends(dialect), Lookup(cache, dialect), context, event);
            && choice.encoding == env.backends(dialect).encode(context, event)
            && CacheOk(env, event, Remember(cache, dialect, choice.cached))
  {
    assert BackendIsContextFree(env.backends(dialect), env.serverName);
  }

  lemma ServeIsTransparent(env: Environment, f: Fanout, moment: Moment, id: ConnectionId, event: Event)
    requires env.ContextFree() && CacheOk(env, event, f.cache) && OffersAreOwn(env, event, f.offers)
    ensures var g := Serve(env, f, moment, id, event);
            && g.connections == DeliverOne(env, f.connections, moment, id, event)
            && OffersAreOwn(env, event, g.offers) && CacheOk(env, event, g.cache)
  {
    hide Queue;
    hide Choose;
    hide Lookup;
    hide Remember;
    hide CacheOk;
    hide Environment.ContextFree;
    var before := moment.others(f.connections);
    if id in before {
      ChoiceIsOwn(env, event, f.cache, before[id].dialect, env.Context(id, moment.presence));
    }
  }

  /** With context-free backends the cached fan-out leaves the same connections
      as the one without a cache, whatever other threads do in between. */
  lemma {:induction false} CacheIsTransparent(
    env: Environment, moments: Moments, connections: Connections, recipients: seq<ConnectionId>, event: Event)
    requires env.ContextFree()
    ensures var f := CachedDeliver(env, moments, connections, recipients, event);
            && f.connections == Deliver(env, moments, connections, recipients, event)
            && OffersAreOwn(env, event, f.offers) && CacheOk(env, event, f.cache)
    decreases |recipients|
  {
    hide Environment.ContextFree;
    hide Serve;
    hide DeliverOne;
    if recipients != [] {
      hide CacheOk;
      hide OffersAreOwn;
      var n := |recipients| - 1;
      CacheIsTransparent(env, moments, connections, recipients[..n], event);
      var f := CachedDeliver(env, moments, connections, recipients[..n], event);
      ServeIsTransparent(env, f, moments(n), recipients[n], event);
    }
  }

  /** The fan-out gives every recipient, of every event and in every
      interleaving, what encoding for it alone would give exactly when the
      backends keep their promise. */
  lemma CacheIsSoundExactlyWhen(env: Environment)
    ensures (forall moments, connections, recipients, event ::
               OffersAreOwn(env, event, CachedDeliver(env, moments, connections, recipients, event).offers))
            <==> env.ContextFree()
  {
    if env.ContextFree() {
      forall moments, connections, recipients, event
        ensures OffersAreOwn(env, event, CachedDeliver(env, moments, connections, recipients, event).offers)
      {
        CacheIsTransparent(env, moments, connections, recipients, event);
      }
    } else {
      var dialect :| !BackendIsContextFree(env.backends(dialect), env.serverName);
      var backend := env.backends(dialect);
      var a: EncodeContext, b: EncodeContext, event: Event :|
        && a.serverName == env.serverName && b.serverName == env.serverName
        && !backend.recipientSpecific(event) && backend.encode(a, event).Ok?
        && backend.encode(b, event) != backend.encode(a, event);
      PairIsUnsound(env, dialect, a, b, event);
    }
  }

  /** Two recipients of one dialect, served one after the other. */
  function PairMoments(a: EncodeContext, b: EncodeContext): Moments {
    k => Moment(connections => connections, if k == 0 then a.recipient else b.recipient)
  }

  lemma PairIsUnsound(env: Environment, dialect: ProtocolDialect, a: EncodeContext, b: EncodeContext, event: Event)
    requires a.serverName == env.serverName && b.serverName == env.serverName
    requires var backend := env.backends(dialect);
             && !backend.recipientSpecific(event) && backend.encode(a, event).Ok?
             && backend.encode(b, event) != backend.encode(a, event)
    ensures var handle := Handle(dialect, [], false, false);
            var connections := map[a.connectionId := handle, b.connectionId := handle];
            !OffersAreOwn(env, event,
              CachedDeliver(env, PairMoments(a, b), connections, [a.connectionId, b.connectionId], event).offers)
  {
    var handle := Handle(dialect, [], false, false);
    var connections := map[a.connectionId := handle, b.connectionId := handle];
    var both, first := [a.connectionId, b.connectionId], [a.connectionId];
    assert both[..1] == first && first[..0] == [];
    var moments := PairMoments(a, b);
    var empty := CachedDeliver(env, moments, connections, [], event);
    var one := CachedDeliver(env, moments, connections, first, event);
    var two := CachedDeliver(env, moments, connections, both, event);
    assert one == Serve(env, empty, moments(0), a.connectionId, event);
    assert two == Serve(env, one, moments(1), b.connectionId, event);
    assert env.Context(a.connectionId, moments(0).presence) == a;
    assert env.Context(b.connectionId, moments(1).presence) == b;
    assert two.offers[1] == Offer(dialect, b, env.backends(dialect).encode(a, event));
  }

  // ---------------------------------------------------------------- The dispatcher

  lemma AppendCalls(a: seq<Call>, b: seq<Call>, c: seq<Call>)
    ensures a + b + c == a + (b + c)
  {
  }

  class Runtime {
    const env: Environment
    var connections: Connections
    /** Every call of an encoder so far. */
    ghost var calls: seq<Call>

    constructor (env: Environment)
      ensures this.env == env && connections == map[] && calls == []
    {
      this.env := env;
      connections, calls := map[], [];
    }

    /** The dispatcher's only way to an encoder. */
    method Encode(dialect: ProtocolDialect, context: EncodeContext, event: Event) returns (encoding: Encoding)
      modifies this`calls
      ensures encoding == env.backends(dialect).encode(context, event)
      ensures calls == old(calls) + [Call(dialect, context, event)]
    {
      encoding := env.backends(dialect).encode(context, event);
      calls := calls + [Call(dialect, context, event)];
    }

    /** Queues what an encoder returned; a connection that cannot take it is
        cancelled. */
    method Enqueue(handle: Handle, encoding: Encoding) returns (after: Handle)
      ensures after == Queue(env.capacity, handle, encoding)
    {
      after := handle;
      match encoding {
        case Ok(frames) =>
          if handle.receiverGone || |handle.mailbox| >= env.capacity {
            after := after.(cancelled := true);
          } else {
            after := after.(mailbox := after.mailbox + [Frames(frames)]);
          }
        case Err(_) =>
          after := after.(cancelled := true);
      }
    }

    method ServeRecipient(cache: Cache, moment: Moment, id: ConnectionId, event: Event)
      returns (after: Cache, ghost offers: seq<Offer>)
      modifies this
      ensures var g := Serve(env, Fanout(old(connections), cache, [], []), moment, id, event);
              && connections == g.connections && after == g.cache && offers == g.offers
              && calls == old(calls) + g.calls
    {
      hide Queue;
      after, offers := cache, [];
      connections := moment.others(connections);
      if id in connections {
        var handle := connections[id];
        var context := env.Context(id, moment.presence);
        var encoding: Encoding;
        if env.backends(handle.dialect).recipientSpecific(event) {
          encoding := Encode(handle.dialect, context, event);
        } else if handle.dialect in cache {
          encoding := Ok(cache[handle.dialect]);
        } else {
          encoding := Encode(handle.dialect, context, event);
          if encoding.Ok? {
            after := cache[handle.dialect := encoding.value];
          }
        }
        offers := [Offer(handle.dialect, context, encoding)];
        var queued := Enqueue(handle, encoding);
        connections := connections[id := queued];
      }
    }

    /** The recipients of one event. */
    method DispatchDelivery(moments: Moments, recipients: seq<ConnectionId>, event: Event)
      returns (ghost offers: seq<Offer>)
      modifies this
      ensures var f := CachedDeliver(env, moments, old(connections), recipients, event);
              && connections == f.connections && offers == f.offers
              && calls == old(calls) + f.calls
    {
      var cache: Cache := map[];
      offers := [];
      ghost var f := CachedDeliver(env, moments, connections, recipients[..0], event);
      hide CachedDeliver;
      hide Serve;
      for i := 0 to |recipients|
        invariant f == CachedDeliver(env, moments, old(connections), recipients[..i], event)
        invariant connections == f.connections && cache == f.cache && offers == f.offers
        invariant calls == old(calls) + f.calls
      {
        ServeNext(env, moments, old(connections), recipients, event, i);
        ServeAppends(env, f, moments(i), recipients[i], event);
        ghost var g := Serve(env, Fanout(f.connections, f.cache, [], []), moments(i), recipients[i], event);
        AppendCalls(old(calls), f.calls, g.calls);
        f := Serve(env, f, moments(i), recipients[i], event);
        ghost var offered;
        cache, offered := ServeRecipient(cache, moments(i), recipients[i], event);
        offers := offers + offered;
      }
      assert recipients[..|recipients|] == recipients;
    }

    method DispatchAll(schedule: Schedule, deliveries: seq<NetworkCore.OrderedDelivery>)
      requires env.ContextFree()
      modifies this
      ensures connections == DeliverAll(env, schedule, old(connections), deliveries)
      ensures calls == old(calls) + CallsOf(env, schedule, old(connections), deliveries)
    {
      ghost var start := connections;
      ghost var made: seq<Call> := [];
      assert connections == DeliverAll(env, schedule, start, deliveries[..0]);
      assert made == CallsOf(env, schedule, start, deliveries[..0]);
      hide *;
      for i := 0 to |deliveries|
        invariant connections == DeliverAll(env, schedule, start, deliveries[..i])
        invariant made == CallsOf(env, schedule, start, deliveries[..i])
        invariant calls == old(calls) + made
      {
        var d := deliveries[i];
        DispatchNext(env, schedule, start, deliveries, i);
        CacheIsTransparent(env, schedule(i), connections, d.recipients, d.event);
        ghost var f := CachedDeliver(env, schedule(i), connections, d.recipients, d.event);
        ghost var offers := DispatchDelivery(schedule(i), d.recipients, d.event);
        AppendCalls(old(calls), made, f.calls);
        made := made + f.calls;
      }
      assert deliveries[..|deliveries|] == deliveries;
    }

    /** `dispatch`: with its caches, it leaves every mailbox as if each recipient
        had been served on its own. */
    method Dispatch(schedule: Schedule, effects: NetworkCore.OrderedEffects)
      requires env.ContextFree()
      modifies this
      ensures connections == Dispatched(env, schedule, old(connections), effects)
      ensures calls == old(calls) + CallsOf(env, schedule, old(connections), effects.deliveries)
    {
      hide DeliverAll;
      hide CallsOf;
      hide AfterClose;
      hide Environment.ContextFree;
      DispatchAll(schedule, effects.deliveries);
      RequestClose(schedule(|effects.deliveries|)(0), effects.close);
    }

    /** Asks a writer to close its connection, if that is still there. */
    method RequestClose(last: Moment, close: Option<CloseConnection>)
      modifies this`connections
      ensures connections == AfterClose(env, last, old(connections), close)
    {
      if close.Some? {
        var id := close.value.connectionId;
        connections := last.others(connections);
        if id in connections {
          var handle := connections[id];
          if handle.receiverGone || |handle.mailbox| >= env.capacity {
            handle := handle.(cancelled := true);
          } else {
            handle := handle.(mailbox := handle.mailbox + [Close]);
          }
          connections := connections[id := handle];
        }
      }
    }
  }
}
