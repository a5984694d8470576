/**
 Dispatchers and writers running at the same time. Every step of a dispatcher
 for one recipient, and every step of a writer, may interleave with any other.
 */
module Mailboxes {
  import opened Wrappers
  import opened Text
  import opened Model
  import opened Runtime

  // ---------------------------------------------------------------- Steps

  /** What the writer of a connection is doing. */
  datatype Writer = Idle | Writing(batch: seq<WireFrame>, next: nat) | Stopped

  /** `received` holds the messages the writer has taken out of the mailbox, and
      `written` the frames the socket has accepted. */
  datatype Connection = Connection(
    dialect: ProtocolDialect, mailbox: seq<Outbound>, cancelled: bool, writer: Writer,
    received: seq<Outbound>, written: seq<WireFrame>)

  /** A dispatcher in the middle of one event, with what it has cached. */
  datatype Dispatcher = Dispatcher(event: Event, cache: Cache)

  /** `BeginEvent` is a dispatcher that turns to its next event, with an empty
      cache; `ServeOne` is its service of one recipient, for which the network
      answers `presence`. A dispatcher may hold the handle of a connection that
      has left the table, so any connection that ever was can be served. */
  datatype Action =
    | Connect(id: ConnectionId, dialect: ProtocolDialect)
    | BeginEvent(dispatcher: nat, event: Event)
    | ServeOne(dispatcher: nat, id: ConnectionId, presence: Option<ClientPresence>)
    | SendClose(id: ConnectionId)
    | Receive(id: ConnectionId)
    | Write(id: ConnectionId, accepted: bool)
    | SendersGone(id: ConnectionId)
    | Cancel(id: ConnectionId)

  datatype World = World(connections: map<ConnectionId, Connection>, dispatchers: map<nat, Dispatcher>)

  function ToHandle(x: Connection): Handle {
    Handle(x.dialect, x.mailbox, x.writer.Stopped?, x.cancelled)
  }

  function FromHandle(x: Connection, handle: Handle): Connection {
    x.(mailbox := handle.mailbox, cancelled := handle.cancelled)
  }

  /** The batch a dispatcher serves `id` with, from its cache or its encoder. */
  function Chosen(env: Environment, w: World, a: Action): Choice
    requires a.ServeOne? && a.dispatcher in w.dispatchers && a.id in w.connections
  {
    var dialect, dispatcher := w.connections[a.id].dialect, w.dispatchers[a.dispatcher];
    Choose(env.backends(dialect), Lookup(dispatcher.cache, dialect), env.Context(a.id, a.presence), dispatcher.event)
  }

  /** One step of a writer, or of whoever cancels a connection. */
  function StepWriter(x: Connection, a: Action): Connection {
    match a
    case Receive(_) =>
      if !x.writer.Idle? || x.mailbox == [] then x
      else
        var taken := x.(mailbox := x.mailbox[1..], received := x.received + [x.mailbox[0]]);
        if x.mailbox[0].Close? then taken.(writer := Stopped, cancelled := true)
        else taken.(writer := Writing(x.mailbox[0].frames, 0))
    case Write(_, accepted) =>
      if !x.writer.Writing? then x
      else if x.writer.next >= |x.writer.batch| then x.(writer := Idle)
      else if accepted then
        x.(written := x.written + [x.writer.batch[x.writer.next]], writer := Writing(x.writer.batch, x.writer.next + 1))
      else x.(writer := Stopped, cancelled := true)
    case SendersGone(_) =>
      if x.writer.Idle? && x.mailbox == [] then x.(writer := Stopped, cancelled := true) else x
    case Cancel(_) => x.(cancelled := true)
    case _ => x
  }

  /** What a step puts into the mailbox of the connection it names, if anything:
      `Err` stands for a batch that could not be encoded. */
  function Posted(env: Environment, w: World, a: Action): Option<Result<Outbound, ()>> {
    match a
    case ServeOne(dispatcher, id, _) =>
      if dispatcher !in w.dispatchers || id !in w.connections then None
      else
        var encoding := Chosen(env, w, a).encoding;
        Some(if encoding.Ok? then Ok(Frames(encoding.value)) else Err(()))
    case SendClose(id) => if id in w.connections then Some(Ok(Close)) else None
    case _ => None
  }

  function Post(env: Environment, x: Connection, message: Result<Outbound, ()>): Connection {
    FromHandle(
      x, if message.Ok? then TrySend(env.capacity, ToHandle(x), message.value) else ToHandle(x).(cancelled := true))
  }

  function StepOne(env: Environment, w: World, x: Connection, a: Action): Connection {
    var posted := Posted(env, w, a);
    if posted.Some? then Post(env, x, posted.value) else StepWriter(x, a)
  }

  function StepDispatchers(env: Environment, w: World, a: Action): map<nat, Dispatcher> {
    match a
    case BeginEvent(dispatcher, event) => w.dispatchers[dispatcher := Dispatcher(event, map[])]
    case ServeOne(dispatcher, id, _) =>
      if dispatcher !in w.dispatchers || id !in w.connections then w.dispatchers
      else
        var served := w.dispatchers[dispatcher];
        var cache := Remember(served.cache, w.connections[id].dialect, Chosen(env, w, a).cached);
        w.dispatchers[dispatcher := served.(cache := cache)]
    case _ => w.dispatchers
  }

  function Step(env: Environment, w: World, a: Action): World {
    World(
      if a.BeginEvent? then w.connections
      else if a.id in w.connections then w.connections[a.id := StepOne(env, w, w.connections[a.id], a)]
      else if a.Connect? then w.connections[a.id := Connection(a.dialect, [], false, Idle, [], [])]
      else w.connections,
      StepDispatchers(env, w, a))
  }

  function Play(env: Environment, run: seq<Action>): World
    decreases |run|
  {
    if run == [] then World(map[], map[]) else Step(env, Play(env, run[..|run| - 1]), run[|run| - 1])
  }

  /** The connections of a world. */
  function After(env: Environment, run: seq<Action>): map<ConnectionId, Connection> {
    Play(env, run).connections
  }

  // ---------------------------------------------------------------- No silent loss

  /** The messages that the steps addressed to `id` ask for, each event encoded
      for `id` on its own, in the order of the steps. */
  function Addressed(env: Environment, run: seq<Action>, id: ConnectionId): seq<Outbound>
    decreases |run|
  {
    if run == [] then [] else
    var before, a := run[..|run| - 1], run[|run| - 1];
    var earlier := Addressed(env, before, id);
    var w := Play(env, before);
    if a.BeginEvent? || a.id != id || id !in w.connections then earlier
    else match a
      case ServeOne(dispatcher, _, presence) =>
        if dispatcher !in w.dispatchers then earlier
        else
          var backend, event := env.backends(w.connections[id].dialect), w.dispatchers[dispatcher].event;
          var encoding := backend.encode(env.Context(id, presence), event);
          if encoding.Ok? then earlier + [Frames(encoding.value)] else earlier
      case SendClose(_) => earlier + [Close]
      case _ => earlier
  }

  /** In every reachable world, every dispatcher's cache holds encodings of the
      event it is dispatching. */
  lemma {:induction false} CachesAreOk(env: Environment, run: seq<Action>)
    requires env.ContextFree()
    ensures forall t :: t in Play(env, run).dispatchers ==>
              CacheOk(env, Play(env, run).dispatchers[t].event, Play(env, run).dispatchers[t].cache)
    decreases |run|
  {
    hide Environment.ContextFree;
    hide CacheOk;
    if run != [] {
      var w, a := Play(env, run[..|run| - 1]), run[|run| - 1];
      CachesAreOk(env, run[..|run| - 1]);
      assert a.BeginEvent? ==> CacheOk(env, a.event, map[]) by {
        EmptyCacheIsOk(env);
      }
      if a.ServeOne? && a.dispatcher in w.dispatchers && a.id in w.connections {
        ChoiceIsOwn(
          env, w.dispatchers[a.dispatcher].event, w.dispatchers[a.dispatcher].cache, w.connections[a.id].dialect,
          env.Context(a.id, a.presence));
      }
    }
  }

  lemma EmptyCacheIsOk(env: Environment)
    ensures forall event :: CacheOk(env, event, map[])
  {
  }

  /** While a connection is not cancelled, everything ever addressed to it was
      queued, in order: what its writer took and what still waits are together
      exactly the addressed messages, although they may come out of a
      dispatcher's cache and any number of dispatchers and writers interleave. */
  lemma {:induction false} NoSilentLoss(env: Environment, run: seq<Action>, id: ConnectionId)
    requires env.ContextFree()
    requires id in After(env, run) && !After(env, run)[id].cancelled
    ensures var x := After(env, run)[id];
            x.received + x.mailbox == Addressed(env, run, id)
    decreases |run|
  {
    hide Environment.ContextFree;
    hide CacheOk;
    hide Choose;
    hide Post;
    hide StepWriter;
    var before, a := run[..|run| - 1], run[|run| - 1];
    var w := Play(env, before);
    if id !in w.connections {
      NothingAddressed(env, before, id);
    } else if a.BeginEvent? || a.id != id {
      NoSilentLoss(env, before, id);
    } else {
      StepKeepsMessages(env, w, w.connections[id], a);
      NoSilentLoss(env, before, id);
      if a.ServeOne? && a.dispatcher in w.dispatchers {
        CachesAreOk(env, before);
        ChoiceIsOwn(
          env, w.dispatchers[a.dispatcher].event, w.dispatchers[a.dispatcher].cache, w.connections[id].dialect,
          env.Context(id, a.presence));
      }
    }
  }

  lemma {:induction false} NothingAddressed(env: Environment, run: seq<Action>, id: ConnectionId)
    requires id !in After(env, run)
    ensures Addressed(env, run, id) == []
    decreases |run|
  {
    hide StepOne;
    hide StepDispatchers;
    if run != [] {
      NothingAddressed(env, run[..|run| - 1], id);
    }
  }

  lemma StepKeepsMessages(env: Environment, w: World, x: Connection, a: Action)
    requires !StepOne(env, w, x, a).cancelled
    ensures !x.cancelled
    ensures var y := StepOne(env, w, x, a);
            match Posted(env, w, a)
            case Some(message) => message.Ok? && y.received + y.mailbox == x.received + x.mailbox + [message.value]
            case None => y.received + y.mailbox == x.received + x.mailbox
  {
    hide Posted;
    var y := StepOne(env, w, x, a);
    if Posted(env, w, a).None? && a.Receive? && y != x {
      assert x.mailbox == [x.mailbox[0]] + x.mailbox[1..];
    }
  }

  // ---------------------------------------------------------------- Capacity and order of writing

  /** The frames of a list of messages. */
  function AllFrames(messages: seq<Outbound>): seq<WireFrame> {
    if messages == [] then []
    else AllFrames(messages[..|messages| - 1]) + FramesIn(messages[|messages| - 1])
  }

  function FramesIn(message: Outbound): seq<WireFrame> {
    match message
    case Frames(frames) => frames
    case Close => []
  }

  /** The writer has written the batches it took, in order and each as a whole,
      except that it may be inside the last one; a `Close` is the last message
      it takes. */
  ghost predicate WriterOk(x: Connection) {
    && (forall i :: 0 <= i < |x.received| && x.received[i].Close? ==> i == |x.received| - 1 && x.writer.Stopped?)
    && match x.writer
       case Idle => x.written == AllFrames(x.received)
       case Writing(batch, next) =>
         && next <= |batch| && x.received != [] && x.received[|x.received| - 1] == Frames(batch)
         && x.written == AllFrames(x.received[..|x.received| - 1]) + batch[..next]
       case Stopped => x.cancelled && x.written <= AllFrames(x.received)
  }

  lemma ReceiveKeepsWriterOk(x: Connection, a: Action)
    requires WriterOk(x) && a.Receive?
    ensures WriterOk(StepWriter(x, a))
  {
    if x.writer.Idle? && x.mailbox != [] {
      var received := x.received + [x.mailbox[0]];
      assert received[..|received| - 1] == x.received;
      assert AllFrames(received) == x.written + FramesIn(x.mailbox[0]);
      if x.mailbox[0].Frames? {
        var batch := x.mailbox[0].frames;
        assert x.written + batch[..0] == x.written;
      }
    }
  }

  lemma WriteKeepsWriterOk(x: Connection, a: Action)
    requires WriterOk(x) && a.Write?
    ensures WriterOk(StepWriter(x, a))
  {
    if x.writer.Writing? {
      var batch, next := x.writer.batch, x.writer.next;
      var head := AllFrames(x.received[..|x.received| - 1]);
      assert AllFrames(x.received) == head + batch;
      if next < |batch| {
        TakeOneMore(head, batch, next);
      } else {
        assert batch[..next] == batch;
      }
    }
  }

  lemma TakeOneMore(head: seq<WireFrame>, batch: seq<WireFrame>, next: nat)
    requires next < |batch|
    ensures head + batch[..next] + [batch[next]] == head + batch[..next + 1]
    ensures head + batch[..next] <= head + batch
  {
    assert batch[..next + 1] == batch[..next] + [batch[next]];
    assert head + batch == head + batch[..next] + batch[next..];
  }

  lemma StepKeepsWriterOk(env: Environment, w: World, x: Connection, a: Action)
    requires WriterOk(x) && |x.mailbox| <= env.capacity
    ensures var y := StepOne(env, w, x, a);
            && WriterOk(y) && |y.mailbox| <= env.capacity
            && (x.cancelled ==> y.cancelled)
            && (x.writer.Stopped? ==> y.writer.Stopped? && y.written == x.written && y.received == x.received)
  {
    hide AllFrames;
    hide Posted;
    if a.Receive? {
      ReceiveKeepsWriterOk(x, a);
    } else if a.Write? {
      WriteKeepsWriterOk(x, a);
    }
  }

  /** In every reachable world the mailboxes are within their capacity and every
      writer has written a prefix of what was queued, batch by batch. */
  lemma {:induction false} WritersWriteInOrder(env: Environment, run: seq<Action>, id: ConnectionId)
    requires id in After(env, run)
    ensures |After(env, run)[id].mailbox| <= env.capacity
    ensures WriterOk(After(env, run)[id])
    decreases |run|
  {
    var before, a := run[..|run| - 1], run[|run| - 1];
    if id in After(env, before) {
      WritersWriteInOrder(env, before, id);
      if !a.BeginEvent? && a.id == id {
        StepKeepsWriterOk(env, Play(env, before), After(env, before)[id], a);
      }
    }
  }

  /** Once a writer has taken a `Close`, nothing is written any more, whatever
      follows; and a cancelled connection stays cancelled. */
  lemma {:induction false} NothingAfterClose(env: Environment, run: seq<Action>, more: seq<Action>, id: ConnectionId)
    requires id in After(env, run)
    ensures id in After(env, run + more)
    ensures After(env, run)[id].cancelled ==> After(env, run + more)[id].cancelled
    ensures Close in After(env, run)[id].received ==>
              After(env, run + more)[id].written == After(env, run)[id].written
    decreases |more|
  {
    WritersWriteInOrder(env, run, id);
    if After(env, run)[id].writer.Stopped? || After(env, run)[id].cancelled {
      StoppedIsFinal(env, run, more, id);
    } else {
      StaysConnected(env, run, more, id);
    }
  }

  lemma PlayOneMore(env: Environment, run: seq<Action>, more: seq<Action>)
    requires more != []
    ensures Play(env, run + more)
            == Step(env, Play(env, run + more[..|more| - 1]), more[|more| - 1])
  {
    assert (run + more)[..|run + more| - 1] == run + more[..|more| - 1];
  }

  lemma {:induction false} StaysConnected(env: Environment, run: seq<Action>, more: seq<Action>, id: ConnectionId)
    requires id in After(env, run)
    ensures id in After(env, run + more)
    decreases |more|
  {
    if more == [] {
      assert run + more == run;
    } else {
      PlayOneMore(env, run, more);
      StaysConnected(env, run, more[..|more| - 1], id);
    }
  }

  lemma {:induction false} StoppedIsFinal(env: Environment, run: seq<Action>, more: seq<Action>, id: ConnectionId)
    requires id in After(env, run)
    ensures id in After(env, run + more)
    ensures After(env, run)[id].cancelled ==> After(env, run + more)[id].cancelled
    ensures After(env, run)[id].writer.Stopped? ==>
              && After(env, run + more)[id].writer.Stopped?
              && After(env, run + more)[id].written == After(env, run)[id].written
    decreases |more|
  {
    if more == [] {
      assert run + more == run;
    } else {
      var shorter := more[..|more| - 1];
      PlayOneMore(env, run, more);
      StoppedIsFinal(env, run, shorter, id);
      if !more[|more| - 1].BeginEvent? && more[|more| - 1].id == id {
        WritersWriteInOrder(env, run + shorter, id);
        StepKeepsWriterOk(env, Play(env, run + shorter), After(env, run + shorter)[id], more[|more| - 1]);
      }
    }
  }

  // ---------------------------------------------------------------- The writer loop

  /** The frames before the first `Close`. */
  function FramesUntilClose(messages: seq<Outbound>): seq<WireFrame> {
    if messages == [] || messages[0].Close? then []
    else messages[0].frames + FramesUntilClose(messages[1..])
  }

  /** How many of `frames` a socket takes that has taken `taken` before. */
  function Accepted(accepts: nat -> bool, taken: nat, frames: seq<WireFrame>): (n: nat)
    ensures n <= |frames|
    decreases |frames|
  {
    if frames == [] || !accepts(taken) then 0 else 1 + Accepted(accepts, taken + 1, frames[1..])
  }

  /** The socket side of a connection. Whether it takes its next frame is up to
      the network; sending includes flushing. */
  class Sink {
    const accepts: nat -> bool
    var written: seq<WireFrame>
    var closed: bool

    constructor (accepts: nat -> bool)
      ensures this.accepts == accepts && written == [] && !closed
    {
      this.accepts := accepts;
      written, closed := [], false;
    }

    method Send(frame: WireFrame) returns (ok: bool)
      modifies this`written
      ensures ok == accepts(|old(written)|)
      ensures written == if ok then old(written) + [frame] else old(written)
    {
      ok := accepts(|written|);
      if ok {
        written := written + [frame];
      }
    }

    /** Failing to close is only logged. */
    method Close()
      modifies this`closed
      ensures closed
    {
      closed := true;
    }

    /** Stops at the first frame that the socket refuses. */
    method SendBatch(batch: seq<WireFrame>) returns (ok: bool)
      modifies this`written
      ensures var n := Accepted(accepts, |old(written)|, batch);
              written == old(written) + batch[..n] && ok == (n == |batch|)
    {
      ghost var n := Accepted(accepts, |written|, batch);
      for k := 0 to |batch|
        invariant written == old(written) + batch[..k]
        invariant k + Accepted(accepts, |written|, batch[k..]) == n
      {
        assert batch[k..][1..] == batch[k + 1..];
        var sent := Send(batch[k]);
        if !sent {
          return false;
        }
        assert batch[..k + 1] == batch[..k] + [batch[k]];
      }
      ok := true;
    }
  }

  /** A socket that takes a whole batch goes on with the rest; one that refuses a
      frame of it never sees the rest. */
  lemma {:induction false} AcceptedInOrder(accepts: nat -> bool, taken: nat, a: seq<WireFrame>, b: seq<WireFrame>)
    ensures Accepted(accepts, taken, a + b) ==
            if Accepted(accepts, taken, a) == |a| then |a| + Accepted(accepts, taken + |a|, b)
            else Accepted(accepts, taken, a)
    decreases |a|
  {
    if a == [] {
      assert a + b == b;
    } else {
      assert (a + b)[1..] == a[1..] + b;
      AcceptedInOrder(accepts, taken + 1, a[1..], b);
    }
  }

  /** What a writer leaves behind: the frames the socket took, and whether it
      was asked to close. */
  datatype Finished = Finished(written: seq<WireFrame>, closed: bool)

  function Finish(accepts: nat -> bool, written: seq<WireFrame>, messages: seq<Outbound>): Finished
    decreases |messages|
  {
    if messages == [] then Finished(written, false)
    else match messages[0]
      case Close => Finished(written, true)
      case Frames(batch) =>
        var n := Accepted(accepts, |written|, batch);
        if n == |batch| then Finish(accepts, written + batch, messages[1..])
        else Finished(written + batch[..n], false)
  }

  /** `run_writer` on the messages its mailbox yields until all senders are gone.
      It always cancels. */
  method RunWriter(messages: seq<Outbound>, sink: Sink) returns (cancelled: bool)
    requires !sink.closed
    modifies sink
    ensures cancelled
    ensures Finished(sink.written, sink.closed) == Finish(sink.accepts, old(sink.written), messages)
  {
    cancelled := true;
    for i := 0 to |messages|
      invariant !sink.closed
      invariant Finish(sink.accepts, old(sink.written), messages) == Finish(sink.accepts, sink.written, messages[i..])
    {
      assert messages[i..][0] == messages[i] && messages[i..][1..] == messages[i + 1..];
      match messages[i] {
        case Frames(batch) =>
          var ok := sink.SendBatch(batch);
          if !ok {
            return;
          }
          assert batch[..|batch|] == batch;
        case Close =>
          sink.Close();
          return;
      }
    }
  }

  /** The writer writes the frames before the first `Close`, in order, up to the
      first that the socket refuses, and closes the socket exactly when it has
      written them all and there is a `Close`. */
  lemma {:induction false} FinishWritesUntilClose(
    accepts: nat -> bool, written: seq<WireFrame>, messages: seq<Outbound>)
    ensures var all := FramesUntilClose(messages);
            var n := Accepted(accepts, |written|, all);
            Finish(accepts, written, messages) == Finished(written + all[..n], n == |all| && Close in messages)
    decreases |messages|
  {
    if messages == [] {
      assert written + [] == written;
    } else if messages[0].Close? {
      assert written + [] == written;
    } else {
      var batch, rest := messages[0].frames, FramesUntilClose(messages[1..]);
      assert Close in messages <==> Close in messages[1..] by {
        assert messages == [messages[0]] + messages[1..];
      }
      AcceptedInOrder(accepts, |written|, batch, rest);
      var n := Accepted(accepts, |written|, batch);
      if n == |batch| {
        FinishWritesUntilClose(accepts, written + batch, messages[1..]);
        BatchThen(written, batch, rest, Accepted(accepts, |written + batch|, rest));
      } else {
        assert (batch + rest)[..n] == batch[..n];
      }
    }
  }

  lemma BatchThen(written: seq<WireFrame>, batch: seq<WireFrame>, rest: seq<WireFrame>, n: nat)
    requires n <= |rest|
    ensures written + batch + rest[..n] == written + (batch + rest)[..|batch| + n]
  {
    assert (batch + rest)[..|batch| + n] == batch + rest[..n];
  }

  /** Which frames those are: all before the first one refused. */
  lemma {:induction false} AcceptedUntilRefused(accepts: nat -> bool, taken: nat, frames: seq<WireFrame>)
    ensures var n := Accepted(accepts, taken, frames);
            && (forall k :: taken <= k < taken + n ==> accepts(k))
            && (n < |frames| ==> !accepts(taken + n))
    decreases |frames|
  {
    if frames != [] && accepts(taken) {
      AcceptedUntilRefused(accepts, taken + 1, frames[1..]);
    }
  }
}
