/** The client object: connection, object table, and the dispatch loop in place. */
module Clients {
  import opened Bytes
  import opened Wire
  import opened Connections
  import opened Dispatching

  class Client<S> {
    const conn: Connection
    const dispatcher: Handler<S>
    var objects: Table
    var nextId: U32
    var st: S

    ghost var log: seq<LogItem>
    ghost var waits: seq<Wait<S>>

    /** A connected client: wl_display is object 1, client ids start at 2. */
    constructor (dispatcher: Handler<S>, st: S, sends: seq<SendAnswer>, recvs: seq<RecvAnswer>)
      ensures fresh(conn) && this.dispatcher == dispatcher
      ensures Value() == NewMachine(st, sends, recvs)
    {
      this.dispatcher := dispatcher;
      conn := new Connection(sends, recvs);
      objects := map[DISPLAY_ID := Display];
      nextId := CLIENT_ID_MIN;
      this.st := st;
      log, waits := [], [];
    }

    ghost function Value(): Machine<S>
      reads this, conn
    {
      Machine(objects, nextId, st, conn.Value(), conn.sends, conn.recvs, log, conn.shipped, waits)
    }

    /** The next client id; the counter wraps like the 32-bit one it models. */
    method AllocId() returns (id: U32)
      modifies this`nextId
      ensures id == old(nextId) && nextId == (old(nextId) + 1) % 0x1_0000_0000
    {
      id := nextId;
      nextId := (nextId + 1) % 0x1_0000_0000;
    }

    method RegisterObject(id: U32, kind: ObjKind)
      modifies this`objects
      ensures objects == old(objects)[id := kind]
    {
      objects := objects[id := kind];
    }

    /** Finishes the message under construction and queues it. */
    method Post(w: Writer)
      requires w.Valid()
      modifies this`log, conn`outBuf, w`buf
      ensures Value() == Posted(old(Value()), [Request(w.request, w.opcode, w.args)], [])
    {
      hide EncodeMessage, EncodeRequests;
      ghost var req := Request(w.request, w.opcode, w.args);
      var bytes := w.Finalize();
      conn.OutBytes(bytes);
      log := log + [Queued(req)];
      EncodeOneRequest(req);
      assert QueuedItems([req]) == [Queued(req)];
      assert conn.outFds + [] == conn.outFds;
    }

    method Flush() returns (ok: bool)
      modifies conn
      ensures (ok, Value()) == FlushMachine(old(Value()))
    {
      ok := conn.Flush();
    }

    /** Sends, parses and dispatches until the goal holds; false when the connection fails or ends first. */
    method DispatchUntil(done: S -> bool) returns (ok: bool)
      modifies this, conn
      ensures (ok, Value()) == Run(dispatcher, done, old(Value()))
    {
      while !done(st)
        invariant Run(dispatcher, done, Value()) == Run(dispatcher, done, old(Value()))
        decreases |conn.recvs|, |conn.inBuf|
      {
        hide FlushRun, EncodeRequests, PeekMessageSize, Drain, DecodeMessage;
        var sent := Flush();
        if !sent {
          return false;
        }
        var consumedAny := DispatchBuffered(done);
        if done(st) {
          return true;
        }
        if consumedAny {
          continue;
        }
        var more := AwaitInput();
        if !more {
          return false;
        }
      }
      return true;
    }

    /** Blocks until input arrives and pumps it in; false when poll or recvmsg ends the run. */
    method AwaitInput() returns (more: bool)
      modifies this, conn
      ensures (more, Value()) == Block(old(Value()))
    {
      waits := waits + [Wait(st, conn.Value())];
      var ready := conn.WaitReadable();
      if !ready {
        return false;
      }
      var n := conn.Pump();
      return n > 0;
    }

    /** The inner loop: parses and dispatches every complete buffered message, stopping early at the goal. */
    method DispatchBuffered(done: S -> bool) returns (consumedAny: bool)
      requires !done(st)
      modifies this, conn
      ensures Value() == Drain(dispatcher, done, old(Value()))
      ensures consumedAny <==> PeekMessageSize(old(conn.inBuf)) != 0
    {
      consumedAny := false;
      while true
        invariant !done(st)
        invariant Drain(dispatcher, done, Value()) == Drain(dispatcher, done, old(Value()))
        invariant if consumedAny then PeekMessageSize(old(conn.inBuf)) != 0 else Value() == old(Value())
        decreases |conn.inBuf|
      {
        hide FromLe32, EncodeRequests, DecodeMessage;
        var n := PeekMessageSize(conn.inBuf);
        if n == 0 {
          return;
        }
        Dispatch(DecodeMessage(conn.inBuf[..n]));
        conn.InConsume(n);
        consumedAny := true;
        if done(st) {
          return;
        }
      }
    }

    /** Hands one message to the dispatcher, which may take one descriptor off the queue and queue replies. */
    method Dispatch(msg: Message)
      modifies this, conn
      ensures var m := old(Value());
              var (fd, fds) := if dispatcher.wants(m.objects, m.st, msg) then PoppedFd(m.q.inFds) else (-1, m.q.inFds);
              var e := dispatcher.handle(m.objects, m.st, msg, fd);
              Value() == m.(objects := e.objects, st := e.st,
                            q := Queues(m.q.inBuf, fds, m.q.outBuf + EncodeRequests(e.replies),
                                        m.q.outFds + e.replyFds),
                            log := m.log + [Event(msg, fd)] + QueuedItems(e.replies))
    {
      hide EncodeRequests;
      var fd := -1;
      if dispatcher.wants(objects, st, msg) {
        fd := conn.PopFd();
      }
      var e := dispatcher.handle(objects, st, msg, fd);
      objects, st := e.objects, e.st;
      log := log + [Event(msg, fd)] + QueuedItems(e.replies);
      var bytes := EncodeRequests(e.replies);
      conn.OutBytes(bytes);
      conn.outFds := conn.outFds + e.replyFds;
    }
  }

  /** A client just connected. */
  function NewMachine<S>(st: S, sends: seq<SendAnswer>, recvs: seq<RecvAnswer>): Machine<S> {
    Machine(map[DISPLAY_ID := Display], CLIENT_ID_MIN, st, Queues([], [], [], []), sends, recvs, [], [], [])
  }

  /** A client after queueing requests and descriptors. */
  function Posted<S>(m: Machine<S>, reqs: seq<Request>, fds: seq<int>): Machine<S> {
    m.(q := m.q.(outBuf := m.q.outBuf + EncodeRequests(reqs), outFds := m.q.outFds + fds),
       log := m.log + QueuedItems(reqs))
  }

  lemma {:induction false} PostedTwice<S>(m: Machine<S>, a: seq<Request>, b: seq<Request>)
    ensures Posted(Posted(m, a, []), b, []) == Posted(m, a + b, [])
  {
    hide EncodeRequests;
    EncodeRequestsConcat(a, b);
    Assoc(m.q.outBuf, EncodeRequests(a), EncodeRequests(b));
    assert QueuedItems(a + b) == QueuedItems(a) + QueuedItems(b);
    Assoc(m.log, QueuedItems(a), QueuedItems(b));
    assert m.q.outFds + [] + [] == m.q.outFds + [];
  }
}
