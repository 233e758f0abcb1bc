/** The client's object table and dispatch loop (src/clipboard/handcrafted.cpp, Client). */
module Dispatching {
  import opened Bytes
  import opened Wire
  import opened Connections

  datatype ObjKind = Unknown | Display | Registry | Callback | Seat | Manager | Device | Source | Offer

  type Table = map<U32, ObjKind>

  function KindIn(objects: Table, id: U32): ObjKind {
    if id in objects then objects[id] else Unknown
  }

  /** What a dispatcher does with one message: new table, new state, and requests it may queue. */
  datatype Effect<S> = Effect(objects: Table, st: S, replies: seq<Request>, replyFds: seq<int>)

  /** A dispatcher. `wants` says whether it calls pop_fd; `handle` receives that call's result, or -1. */
  datatype Handler<!S> = Handler(
    wants: (Table, S, Message) -> bool,
    handle: (Table, S, Message, int) -> Effect<S>)

  /** What crossed the connection, in causal order: events dispatched, requests queued. */
  datatype LogItem = Event(msg: Message, fd: int) | Queued(req: Request)

  /** The client at a wait_readable call. */
  datatype Wait<S> = Wait(st: S, q: Queues)

  /** The client, its connection, and the history of both. */
  datatype Machine<S> = Machine(
    objects: Table, nextId: U32, st: S,
    q: Queues, sends: seq<SendAnswer>, recvs: seq<RecvAnswer>,
    log: seq<LogItem>, shipped: seq<Batch>, waits: seq<Wait<S>>)

  function QueuedItems(rs: seq<Request>): (items: seq<LogItem>)
    ensures |items| == |rs|
  {
    seq(|rs|, i requires 0 <= i < |rs| => Queued(rs[i]))
  }

  // ---- The loop as a function ---------------------------------------------

  function FlushMachine<S>(m: Machine<S>): (bool, Machine<S>) {
    var f := FlushRun(m.q.outBuf, m.q.outFds, m.sends);
    (f.ok, m.(q := m.q.(outBuf := f.outBuf, outFds := f.outFds), sends := f.sends, shipped := m.shipped + f.batches))
  }

  /** Dispatching the message at the front of the input. */
  function Step<S>(h: Handler<S>, m: Machine<S>): Machine<S>
    requires PeekMessageSize(m.q.inBuf) != 0
  {
    var n := PeekMessageSize(m.q.inBuf);
    var msg := DecodeMessage(m.q.inBuf[..n]);
    var (fd, fds) := if h.wants(m.objects, m.st, msg) then PoppedFd(m.q.inFds) else (-1, m.q.inFds);
    var e := h.handle(m.objects, m.st, msg, fd);
    m.(objects := e.objects, st := e.st,
       q := Queues(m.q.inBuf[n..], fds, m.q.outBuf + EncodeRequests(e.replies), m.q.outFds + e.replyFds),
       log := m.log + [Event(msg, fd)] + QueuedItems(e.replies))
  }

  /** The inner loop: complete messages are dispatched until the goal holds or none is left. */
  function Drain<S>(h: Handler<S>, done: S -> bool, m: Machine<S>): (r: Machine<S>)
    ensures |r.q.inBuf| <= |m.q.inBuf| && r.recvs == m.recvs && r.sends == m.sends && r.waits == m.waits
    ensures r.nextId == m.nextId && r.shipped == m.shipped
    ensures PeekMessageSize(m.q.inBuf) != 0 && !done(m.st) ==> |r.q.inBuf| < |m.q.inBuf|
    ensures done(r.st) || PeekMessageSize(r.q.inBuf) == 0
    decreases |m.q.inBuf|
  {
    if done(m.st) || PeekMessageSize(m.q.inBuf) == 0 then m else Drain(h, done, Step(h, m))
  }

  /** One wait_readable and the pump behind it, on a client with nothing to send and nothing to parse. */
  function Block<S>(m: Machine<S>): (bool, Machine<S>) {
    var w := m.(waits := m.waits + [Wait(m.st, m.q)]);
    if m.recvs == [] then (false, w)
    else
      var w := w.(recvs := m.recvs[1..]);
      match m.recvs[0]
      case Got(c) => (true, w.(q := m.q.(inBuf := m.q.inBuf + c.bytes, inFds := m.q.inFds + c.fds)))
      case _ => (false, w)
  }

  /** dispatch_until. */
  function Run<S>(h: Handler<S>, done: S -> bool, m: Machine<S>): (bool, Machine<S>)
    decreases |m.recvs|, |m.q.inBuf|
  {
    if done(m.st) then (true, m)
    else
      var (sent, flushed) := FlushMachine(m);
      if !sent then (false, flushed)
      else if PeekMessageSize(m.q.inBuf) != 0 then Run(h, done, Drain(h, done, flushed))
      else
        var (more, got) := Block(flushed);
        if more then Run(h, done, got) else (false, got)
  }

  // ---- Blocking is safe ---------------------------------------------------

  /** The goal is open, nothing is left to send, and the input holds no complete message. */
  ghost predicate SafeWait<S>(done: S -> bool, w: Wait<S>) {
    !done(w.st) && w.q.outBuf == [] && w.q.outFds == [] && PeekMessageSize(w.q.inBuf) == 0
  }

  /** Whatever the dispatcher does, replies included, every wait of a run is safe, and the run reports
      success exactly when it stopped at the goal. */
  lemma {:induction false} RunWaitsSafely<S>(h: Handler<S>, done: S -> bool, m: Machine<S>)
    ensures var (ok, r) := Run(h, done, m);
            && m.waits <= r.waits
            && (forall i | |m.waits| <= i < |r.waits| :: SafeWait(done, r.waits[i]))
            && (ok <==> done(r.st))
    decreases |m.recvs|, |m.q.inBuf|
  {
    hide PeekMessageSize;
    if !done(m.st) {
      FlushConserves(m.q.outBuf, m.q.outFds, m.sends);
      var (sent, flushed) := FlushMachine(m);
      if sent {
        if PeekMessageSize(m.q.inBuf) != 0 {
          RunWaitsSafely(h, done, Drain(h, done, flushed));
        } else {
          var (more, got) := Block(flushed);
          assert SafeWait(done, Wait(flushed.st, flushed.q));
          if more {
            RunWaitsSafely(h, done, got);
          }
        }
      }
    }
  }

  // ---- An induction principle for runs ------------------------------------

  /** inv survives every message the handler may be given. */
  ghost predicate Preserved<S(!new)>(h: Handler<S>, inv: (Table, S, seq<LogItem>) -> bool) {
    forall objects: Table, st: S, log: seq<LogItem>, msg: Message,
        fd: int {:trigger inv(objects, st, log), h.handle(objects, st, msg, fd)} ::
      inv(objects, st, log) && Fits(msg) ==> InvAfter(h, inv, objects, st, log, msg, fd)
  }

  ghost predicate InvAfter<S>(h: Handler<S>, inv: (Table, S, seq<LogItem>) -> bool, objects: Table, st: S,
                              log: seq<LogItem>, msg: Message, fd: int)
  {
    var e := h.handle(objects, st, msg, fd);
    inv(e.objects, e.st, log + [Event(msg, fd)] + QueuedItems(e.replies))
  }

  lemma {:induction false} StepPreserves<S(!new)>(h: Handler<S>, inv: (Table, S, seq<LogItem>) -> bool, m: Machine<S>)
    requires PeekMessageSize(m.q.inBuf) != 0
    requires Preserved(h, inv) && inv(m.objects, m.st, m.log)
    ensures var r := Step(h, m); inv(r.objects, r.st, r.log)
  {
    hide FromLe32, EncodeRequests;
    var n := PeekMessageSize(m.q.inBuf);
    var msg := DecodeMessage(m.q.inBuf[..n]);
    assert Fits(msg);
    var fd := if h.wants(m.objects, m.st, msg) then PoppedFd(m.q.inFds).0 else -1;
    var e := h.handle(m.objects, m.st, msg, fd);
    assert InvAfter(h, inv, m.objects, m.st, m.log, msg, fd);
  }

  lemma {:induction false} DrainPreserves<S(!new)>(h: Handler<S>, done: S -> bool,
                                                   inv: (Table, S, seq<LogItem>) -> bool, m: Machine<S>)
    requires Preserved(h, inv) && inv(m.objects, m.st, m.log)
    ensures var r := Drain(h, done, m); inv(r.objects, r.st, r.log)
    decreases |m.q.inBuf|
  {
    hide Preserved, PeekMessageSize, DecodeMessage, EncodeRequests;
    if !done(m.st) && PeekMessageSize(m.q.inBuf) != 0 {
      StepPreserves(h, inv, m);
      DrainPreserves(h, done, inv, Step(h, m));
    }
  }

  /** What every message preserves holds after every run, whatever the kernel and the peer do. */
  lemma {:induction false} RunPreserves<S(!new)>(h: Handler<S>, done: S -> bool,
                                                 inv: (Table, S, seq<LogItem>) -> bool, m: Machine<S>)
    requires Preserved(h, inv) && inv(m.objects, m.st, m.log)
    ensures var r := Run(h, done, m).1; inv(r.objects, r.st, r.log)
    decreases |m.recvs|, |m.q.inBuf|
  {
    hide Preserved, PeekMessageSize, FlushRun, EncodeRequests;
    var (sent, flushed) := FlushMachine(m);
    if !done(m.st) && sent {
      if PeekMessageSize(m.q.inBuf) != 0 {
        DrainPreserves(h, done, inv, flushed);
        RunPreserves(h, done, inv, Drain(h, done, flushed));
      } else if Block(flushed).0 {
        RunPreserves(h, done, inv, Block(flushed).1);
      }
    }
  }

  // ---- Everything queued goes out, in order -------------------------------

  function Requests(log: seq<LogItem>): seq<Request> {
    if log == [] then []
    else (if log[0].Queued? then [log[0].req] else []) + Requests(log[1..])
  }

  lemma {:induction false} RequestsConcat(a: seq<LogItem>, b: seq<LogItem>)
    ensures Requests(a + b) == Requests(a) + Requests(b)
  {
    if a == [] {
      assert a + b == b;
    } else {
      RequestsConcat(a[1..], b);
      assert (a + b)[1..] == a[1..] + b;
      Assoc(if a[0].Queued? then [a[0].req] else [], Requests(a[1..]), Requests(b));
    }
  }

  lemma {:induction false} RequestsOfQueued(rs: seq<Request>)
    ensures Requests(QueuedItems(rs)) == rs
  {
    if rs != [] {
      RequestsOfQueued(rs[1..]);
      assert QueuedItems(rs)[1..] == QueuedItems(rs[1..]);
    }
  }

  lemma {:induction false} QueuedIsRequested(log: seq<LogItem>, item: LogItem)
    requires item in log && item.Queued?
    ensures item.req in Requests(log)
    decreases |log|
  {
    if log[0] != item {
      QueuedIsRequested(log[1..], item);
    }
  }

  /** The bytes sent so far and those still queued are together the encoding of the requests made so far. */
  ghost predicate Accounted<S>(m: Machine<S>) {
    BatchBytes(m.shipped) + m.q.outBuf == EncodeRequests(Requests(m.log))
  }

  lemma {:induction false} FlushAccounts<S>(m: Machine<S>)
    requires Accounted(m)
    ensures Accounted(FlushMachine(m).1)
  {
    hide EncodeRequests, Requests;
    var f := FlushRun(m.q.outBuf, m.q.outFds, m.sends);
    FlushConserves(m.q.outBuf, m.q.outFds, m.sends);
    BatchesConcat(m.shipped, f.batches);
    Assoc(BatchBytes(m.shipped), BatchBytes(f.batches), f.outBuf);
  }

  /** Queueing requests, after possibly logging an event, keeps the account. */
  lemma {:induction false} QueueAccounts<S>(m: Machine<S>, events: seq<LogItem>, rs: seq<Request>, r: Machine<S>)
    requires Accounted(m) && Requests(events) == []
    requires r.shipped == m.shipped && r.q.outBuf == m.q.outBuf + EncodeRequests(rs)
    requires r.log == m.log + events + QueuedItems(rs)
    ensures Accounted(r)
  {
    hide EncodeRequests, Requests;
    RequestsConcat(m.log + events, QueuedItems(rs));
    RequestsConcat(m.log, events);
    RequestsOfQueued(rs);
    EncodeRequestsConcat(Requests(m.log), rs);
    Assoc(BatchBytes(m.shipped), m.q.outBuf, EncodeRequests(rs));
    assert Requests(m.log) + [] == Requests(m.log);
  }

  lemma {:induction false} DrainAccounts<S>(h: Handler<S>, done: S -> bool, m: Machine<S>)
    requires Accounted(m)
    ensures Accounted(Drain(h, done, m))
    decreases |m.q.inBuf|
  {
    hide Accounted, PeekMessageSize, DecodeMessage, EncodeRequests;
    if !done(m.st) && PeekMessageSize(m.q.inBuf) != 0 {
      StepAccounts(h, m);
      DrainAccounts(h, done, Step(h, m));
    }
  }

  lemma {:induction false} StepAccounts<S>(h: Handler<S>, m: Machine<S>)
    requires PeekMessageSize(m.q.inBuf) != 0 && Accounted(m)
    ensures Accounted(Step(h, m))
  {
    hide Accounted, PeekMessageSize, DecodeMessage, EncodeRequests;
    var n := PeekMessageSize(m.q.inBuf);
    var msg := DecodeMessage(m.q.inBuf[..n]);
    var fd := if h.wants(m.objects, m.st, msg) then PoppedFd(m.q.inFds).0 else -1;
    var e := h.handle(m.objects, m.st, msg, fd);
    assert Requests([Event(msg, fd)]) == Requests([]);
    QueueAccounts(m, [Event(msg, fd)], e.replies, Step(h, m));
  }

  lemma {:induction false} RunAccounts<S>(h: Handler<S>, done: S -> bool, m: Machine<S>)
    requires Accounted(m)
    ensures Accounted(Run(h, done, m).1)
    decreases |m.recvs|, |m.q.inBuf|
  {
    hide PeekMessageSize, BatchBytes, EncodeRequests, Requests, FlushRun;
    if !done(m.st) {
      FlushAccounts(m);
      var (sent, flushed) := FlushMachine(m);
      if sent {
        if PeekMessageSize(m.q.inBuf) != 0 {
          DrainAccounts(h, done, flushed);
          RunAccounts(h, done, Drain(h, done, flushed));
        } else {
          var (more, got) := Block(flushed);
          assert Accounted(got);
          if more {
            RunAccounts(h, done, got);
          }
        }
      }
    }
  }

  // ---- The peer's view: packets -------------------------------------------

  /** A message of the peer, with the descriptor it carries, if any. */
  datatype Packet = Packet(msg: Message, fd: Option<int>)

  function FdOf(p: Packet): int {
    if p.fd.Some? then p.fd.value else -1
  }

  function EncodePackets(ps: seq<Packet>): seq<Byte> {
    if ps == [] then [] else EncodeMessage(ps[0].msg) + EncodePackets(ps[1..])
  }

  function PacketFds(ps: seq<Packet>): seq<int> {
    if ps == [] then [] else (if ps[0].fd.Some? then [ps[0].fd.value] else []) + PacketFds(ps[1..])
  }

  /** The chunks a run receives before its first failing answer. */
  function Incoming(recvs: seq<RecvAnswer>): seq<Batch> {
    if recvs != [] && recvs[0].Got? then [recvs[0].chunk] + Incoming(recvs[1..]) else []
  }

  /** No descriptor comes later than the last byte of its message, at this point and after every chunk. */
  ghost predicate InTime(ps: seq<Packet>, bytes: nat, fds: nat, chunks: seq<Batch>)
    decreases |chunks|
  {
    && (forall k | 0 <= k <= |ps| :: |EncodePackets(ps[..k])| <= bytes ==> |PacketFds(ps[..k])| <= fds)
    && (chunks != [] ==> InTime(ps, bytes + |chunks[0].bytes|, fds + |chunks[0].fds|, chunks[1..]))
  }

  /** What is buffered and what is still to come is the peer's stream ps, cut into chunks anyhow,
      possibly broken off early, with every descriptor in order and in time. */
  ghost predicate Faithful(ps: seq<Packet>, q: Queues, recvs: seq<RecvAnswer>) {
    && (forall p | p in ps :: Fits(p.msg))
    && q.inBuf + BatchBytes(Incoming(recvs)) <= EncodePackets(ps)
    && q.inFds + BatchFds(Incoming(recvs)) <= PacketFds(ps)
    && InTime(ps, |q.inBuf|, |q.inFds|, Incoming(recvs))
  }

  /** The one-shot reading of a packet list: handle packets in order, each with its own descriptor,
      until the goal holds. */
  datatype Folded<S> = Folded(stopped: bool, objects: Table, st: S, rest: seq<Packet>, log: seq<LogItem>)

  function FoldUntil<S>(h: Handler<S>, done: S -> bool, objects: Table, st: S, ps: seq<Packet>): Folded<S>
    decreases |ps|
  {
    if done(st) then Folded(true, objects, st, ps, [])
    else if ps == [] then Folded(false, objects, st, ps, [])
    else
      var e := h.handle(objects, st, ps[0].msg, FdOf(ps[0]));
      var f := FoldUntil(h, done, e.objects, e.st, ps[1..]);
      f.(log := [Event(ps[0].msg, FdOf(ps[0]))] + QueuedItems(e.replies) + f.log)
  }

  /** Up to the goal, the peer attaches a descriptor exactly to the messages whose handler asks for one. */
  ghost predicate Matched<S>(h: Handler<S>, done: S -> bool, objects: Table, st: S, ps: seq<Packet>)
    decreases |ps|
  {
    done(st) || ps == [] ||
    (&& h.wants(objects, st, ps[0].msg) == ps[0].fd.Some?
     && var e := h.handle(objects, st, ps[0].msg, FdOf(ps[0]));
        Matched(h, done, e.objects, e.st, ps[1..]))
  }
}
