/** Runs that get the whole stream: they end exactly as the packets and the kernel's answers to the sends say, and
    leave nothing undispatched. */
module Completion {
  import opened Bytes
  import opened Wire
  import opened Connections
  import opened Dispatching
  import opened Transport
  import opened Clients
  import opened Phases

  // ---- The whole stream ---------------------------------------------------

  /** What is buffered and still to come is all of ps. */
  ghost predicate Whole(ps: seq<Packet>, q: Queues, recvs: seq<RecvAnswer>) {
    q.inBuf + BatchBytes(Incoming(recvs)) == EncodePackets(ps)
  }

  /** With nothing more to come and no complete message buffered, the stream is used up. */
  lemma {:induction false} NothingLeft(ps: seq<Packet>, q: Queues, recvs: seq<RecvAnswer>)
    requires Whole(ps, q, recvs) && (forall p | p in ps :: Fits(p.msg))
    requires PeekMessageSize(q.inBuf) == 0 && Incoming(recvs) == []
    ensures ps == []
  {
    hide PeekMessageSize, EncodeMessage;
    if ps != [] {
      assert q.inBuf + [] == q.inBuf;
      FrontMessage(ps[0].msg, EncodePackets(ps[1..]));
      EncodedLength(ps[0].msg);
      assert false;
    }
  }

  lemma {:induction false} StepKeepsWhole<S>(h: Handler<S>, done: S -> bool, m: Machine<S>, ps: seq<Packet>)
    requires Faithful(ps, m.q, m.recvs) && Matched(h, done, m.objects, m.st, ps) && Whole(ps, m.q, m.recvs)
    requires !done(m.st) && PeekMessageSize(m.q.inBuf) != 0
    ensures ps != [] && var r := Step(h, m); Whole(ps[1..], r.q, r.recvs)
  {
    hide EncodeMessage, DecodeMessage, PeekMessageSize, Faithful, Matched, EncodeRequests;
    FrontPacket(ps, m.q, m.recvs);
    var n := |EncodeMessage(ps[0].msg)|;
    var more := BatchBytes(Incoming(m.recvs));
    assert m.q.inBuf[n..] + more == (m.q.inBuf + more)[n..];
    assert EncodePackets(ps)[n..] == EncodePackets(ps[1..]);
  }

  lemma {:induction false} DrainKeepsWhole<S>(h: Handler<S>, done: S -> bool, m: Machine<S>, ps: seq<Packet>)
    returns (rest: seq<Packet>)
    requires Faithful(ps, m.q, m.recvs) && Matched(h, done, m.objects, m.st, ps) && Whole(ps, m.q, m.recvs)
    ensures var r := Drain(h, done, m);
            Faithful(rest, r.q, r.recvs) && Whole(rest, r.q, r.recvs) && Carried(h, done, m, r, ps, rest)
    decreases |m.q.inBuf|
  {
    hide DecodeMessage, PeekMessageSize, Faithful, EncodeRequests, Carried, Whole, Step;
    if done(m.st) || PeekMessageSize(m.q.inBuf) == 0 {
      rest := ps;
      CarriedNothing(h, done, m, m, ps);
    } else {
      var r := Step(h, m);
      StepShrinks(h, m);
      StepTransports(h, done, m, ps);
      StepKeepsWhole(h, done, m, ps);
      CarriedMatches(h, done, m, r, ps, ps[1..]);
      rest := DrainKeepsWhole(h, done, r, ps[1..]);
      CarriedOn(h, done, m, r, Drain(h, done, m), ps, ps[1..], rest);
    }
  }

  lemma {:induction false} StepShrinks<S>(h: Handler<S>, m: Machine<S>)
    requires PeekMessageSize(m.q.inBuf) != 0
    ensures |Step(h, m).q.inBuf| < |m.q.inBuf|
  {
    hide DecodeMessage, EncodeRequests;
  }

  lemma {:induction false} SameWhole(ps: seq<Packet>, q: Queues, q': Queues, recvs: seq<RecvAnswer>)
    requires q'.inBuf == q.inBuf
    ensures Whole(ps, q, recvs) == Whole(ps, q', recvs)
  {
  }

  lemma {:induction false} FaithfulFits(ps: seq<Packet>, q: Queues, recvs: seq<RecvAnswer>)
    requires Faithful(ps, q, recvs)
    ensures forall p | p in ps :: Fits(p.msg)
  {
    hide InTime;
  }

  lemma {:induction false} ReceiveKeepsWhole(ps: seq<Packet>, q: Queues, recvs: seq<RecvAnswer>, q': Queues)
    requires Whole(ps, q, recvs) && recvs != [] && recvs[0].Got?
    requires q'.inBuf == q.inBuf + recvs[0].chunk.bytes
    ensures Whole(ps, q', recvs[1..])
  {
    hide EncodePackets;
    var c: Batch := recvs[0].chunk;
    BatchesCons(c, Incoming(recvs[1..]));
    Assoc(q.inBuf, c.bytes, BatchBytes(Incoming(recvs[1..])));
  }

  // ---- One run ------------------------------------------------------------

  /** Every flush the run makes before it stops succeeds. */
  ghost predicate Flows<S>(h: Handler<S>, done: S -> bool, m: Machine<S>)
    decreases |m.recvs|, |m.q.inBuf|
  {
    done(m.st) ||
    (var (sent, flushed) := FlushMachine(m);
     && sent
     && if PeekMessageSize(m.q.inBuf) != 0 then Flows(h, done, Drain(h, done, flushed))
        else Block(flushed).0 ==> Flows(h, done, Block(flushed).1))
  }

  /** The run ended as the one-shot reading ends, with the same state and the same log, and if it missed its goal,
      nothing is left to dispatch. */
  ghost predicate HeardAll<S>(m: Machine<S>, ok: bool, r: Machine<S>, f: Folded<S>) {
    && m.log <= r.log
    && f == Folded(ok, r.objects, r.st, f.rest, r.log[|m.log|..])
    && (!ok ==> f.rest == [])
    && (ok ==> Faithful(f.rest, r.q, r.recvs) && Whole(f.rest, r.q, r.recvs))
  }

  /** Completeness, exactly. However the whole stream is chunked: if the kernel takes what the run flushes, the run
      reaches its goal exactly if the one-shot reading does, and otherwise has dispatched every packet; if a flush
      fails, the run fails. */
  lemma {:induction false} RunCompletes<S>(h: Handler<S>, done: S -> bool, m: Machine<S>, ps: seq<Packet>)
    requires Faithful(ps, m.q, m.recvs) && Matched(h, done, m.objects, m.st, ps) && Whole(ps, m.q, m.recvs)
    ensures var (ok, r) := Run(h, done, m);
            if Flows(h, done, m) then HeardAll(m, ok, r, FoldUntil(h, done, m.objects, m.st, ps)) else !ok
    decreases |m.recvs|, |m.q.inBuf|
  {
    hide PeekMessageSize, Faithful, EncodeRequests, Carried, Matched, FlushRun, FoldUntil, Whole, HeardAll;
    var (sent, flushed) := FlushMachine(m);
    if done(m.st) {
      AtGoal(h, done, m, ps);
    } else if sent {
      SameInput(ps, m.q, flushed.q, m.recvs);
      SameWhole(ps, m.q, flushed.q, m.recvs);
      CarriedNothing(h, done, m, flushed, ps);
      if PeekMessageSize(m.q.inBuf) != 0 {
        var rest := DrainKeepsWhole(h, done, flushed, ps);
        var d := Drain(h, done, flushed);
        CarriedOn(h, done, m, flushed, d, ps, ps, rest);
        CarriedMatches(h, done, m, d, ps, rest);
        RunCompletes(h, done, d, rest);
        if Flows(h, done, d) {
          HeardOn(h, done, m, d, ps, rest, Run(h, done, d).0, Run(h, done, d).1);
        }
      } else {
        var (more, got) := Block(flushed);
        if more {
          ReceiveKeepsFaithful(ps, flushed.q, flushed.recvs, got.q);
          ReceiveKeepsWhole(ps, flushed.q, flushed.recvs, got.q);
          CarriedNothing(h, done, m, got, ps);
          RunCompletes(h, done, got, ps);
          if Flows(h, done, got) {
            HeardOn(h, done, m, got, ps, ps, Run(h, done, got).0, Run(h, done, got).1);
          }
        } else {
          FaithfulFits(ps, m.q, m.recvs);
          NothingLeft(ps, m.q, m.recvs);
          UsedUp(h, done, m, got);
        }
      }
    }
  }

  lemma {:induction false} AtGoal<S>(h: Handler<S>, done: S -> bool, m: Machine<S>, ps: seq<Packet>)
    requires Faithful(ps, m.q, m.recvs) && Whole(ps, m.q, m.recvs) && done(m.st)
    ensures HeardAll(m, true, m, FoldUntil(h, done, m.objects, m.st, ps))
  {
    hide Faithful, Whole;
    assert m.log[|m.log|..] == [];
  }

  lemma {:induction false} UsedUp<S>(h: Handler<S>, done: S -> bool, m: Machine<S>, r: Machine<S>)
    requires !done(m.st) && r.log == m.log && r.objects == m.objects && r.st == m.st
    ensures HeardAll(m, false, r, FoldUntil(h, done, m.objects, m.st, []))
  {
    hide Faithful, Whole;
    assert r.log[|m.log|..] == [];
  }

  lemma {:induction false} HeardOn<S>(h: Handler<S>, done: S -> bool, m: Machine<S>, d: Machine<S>, ps: seq<Packet>,
                                      rest: seq<Packet>, ok: bool, r: Machine<S>)
    requires Carried(h, done, m, d, ps, rest)
    requires HeardAll(d, ok, r, FoldUntil(h, done, d.objects, d.st, rest))
    ensures HeardAll(m, ok, r, FoldUntil(h, done, m.objects, m.st, ps))
  {
    hide FoldUntil, Matched, Faithful, Whole;
    assert r.log[|m.log|..] == d.log[|m.log|..] + r.log[|d.log|..];
  }

  // ---- Whole programs -----------------------------------------------------

  /** Every flush that the waits of the program make succeeds. */
  ghost predicate PhasesFlow<S>(h: Handler<S>, program: seq<Phase<S>>, m: Machine<S>)
    decreases |program|
  {
    program == [] ||
    (var e := program[0].enter(m.objects, m.nextId, m.st);
     e.Entered? ==>
       && Flows(h, program[0].done, EnterMachine(m, e))
       && var (status, r) := RunPhase(h, program[0], m);
          status.Completed? ==> PhasesFlow(h, program[1..], r))
  }

  /** The run told the whole story, its end included. */
  ghost predicate TellsAll<S>(m: Machine<S>, status: Status, r: Machine<S>, s: Story<S>) {
    && m.log <= r.log
    && s == Story(status, r.objects, r.nextId, r.st, s.rest, r.log[|m.log|..])
    && (status.Lost? ==> s.rest == [])
    && (status.Completed? ==> Faithful(s.rest, r.q, r.recvs) && Whole(s.rest, r.q, r.recvs))
  }

  /** Entering a phase queues its requests, and may send, but does not touch the input. */
  lemma {:induction false} EnterState<S>(m: Machine<S>, e: Entry<S>)
    requires e.Entered?
    ensures var r := EnterMachine(m, e);
            && r.objects == e.objects && r.nextId == e.nextId && r.st == e.st
            && r.log == m.log + QueuedItems(e.reqs)
            && r.q.inBuf == m.q.inBuf && r.q.inFds == m.q.inFds && r.recvs == m.recvs
  {
    hide FlushRun, EncodeRequests;
  }

  lemma {:induction false} EnterRefused<S>(m: Machine<S>, e: Entry<S>)
    requires e.Refused?
    ensures EnterMachine(m, e) == m.(st := e.st)
  {
  }

  lemma {:induction false} PhaseCompletes<S>(h: Handler<S>, p: Phase<S>, m: Machine<S>, ps: seq<Packet>)
    requires Faithful(ps, m.q, m.recvs) && Whole(ps, m.q, m.recvs)
    requires MatchedPhases(h, [p], m.objects, m.nextId, m.st, ps)
    ensures var (status, r) := RunPhase(h, p, m);
            var e := p.enter(m.objects, m.nextId, m.st);
            if e.Entered? && !Flows(h, p.done, EnterMachine(m, e)) then status.Lost?
            else TellsAll(m, status, r, FoldPhase(h, p, m.objects, m.nextId, m.st, ps))
  {
    hide Faithful, Matched, Run, FoldUntil, Whole, Flows, EnterMachine;
    var e := p.enter(m.objects, m.nextId, m.st);
    if e.Entered? {
      EnterState(m, e);
      var entered := EnterMachine(m, e);
      SameInput(ps, m.q, entered.q, m.recvs);
      SameWhole(ps, m.q, entered.q, m.recvs);
      RunCompletes(h, p.done, entered, ps);
      RunKeepsNextId(h, p.done, entered);
      var (ok, r) := Run(h, p.done, entered);
      if Flows(h, p.done, entered) {
        assert r.log[|m.log|..] == QueuedItems(e.reqs) + r.log[|entered.log|..];
      }
    } else {
      EnterRefused(m, e);
      assert m.log[|m.log|..] == [];
    }
  }

  /** Completeness of whole programs, exactly: given the whole stream, a program whose flushes succeed ends as the
      one-shot story ends, with its state and its log, and if it misses a goal it has dispatched every packet; a
      program with a failing flush is cut off. */
  lemma {:induction false} PhasesComplete<S>(h: Handler<S>, program: seq<Phase<S>>, m: Machine<S>, ps: seq<Packet>)
    requires Faithful(ps, m.q, m.recvs) && Whole(ps, m.q, m.recvs)
    requires MatchedPhases(h, program, m.objects, m.nextId, m.st, ps)
    ensures var (status, r) := RunPhases(h, program, m);
            if PhasesFlow(h, program, m) then
              TellsAll(m, status, r, FoldPhases(h, program, m.objects, m.nextId, m.st, ps))
            else status.Lost?
    decreases |program|
  {
    hide Faithful, Matched, RunPhase, FoldPhase, Whole, Flows, EnterMachine;
    if program == [] {
      assert m.log[|m.log|..] == [];
    } else {
      var p := program[0];
      MatchedFirst(h, program, m.objects, m.nextId, m.st, ps);
      PhaseCompletes(h, p, m, ps);
      var (status, r) := RunPhase(h, p, m);
      if p.enter(m.objects, m.nextId, m.st).Refused? {
        RefusedIsRejected(h, p, m);
      }
      if status.Completed? {
        var s := FoldPhase(h, p, m.objects, m.nextId, m.st, ps);
        PhasesComplete(h, program[1..], r, s.rest);
        var r' := RunPhases(h, program[1..], r).1;
        if PhasesFlow(h, program, m) {
          assert r'.log[|m.log|..] == r.log[|m.log|..] + r'.log[|r.log|..];
        }
      }
    }
  }

  lemma {:induction false} FlowsConcat<S>(h: Handler<S>, a: seq<Phase<S>>, b: seq<Phase<S>>, m: Machine<S>)
    ensures var (status, r) := RunPhases(h, a, m);
            PhasesFlow(h, a + b, m) <==> PhasesFlow(h, a, m) && (status.Completed? ==> PhasesFlow(h, b, r))
    decreases |a|
  {
    hide RunPhase, Flows, EnterMachine;
    if a == [] {
      assert a + b == b;
    } else {
      assert (a + b)[1..] == a[1..] + b && (a + b)[0] == a[0];
      var e := a[0].enter(m.objects, m.nextId, m.st);
      if e.Refused? {
        RefusedIsRejected(h, a[0], m);
      }
      FlowsConcat(h, a[1..], b, RunPhase(h, a[0], m).1);
    }
  }

  lemma {:induction false} RefusedIsRejected<S>(h: Handler<S>, p: Phase<S>, m: Machine<S>)
    requires p.enter(m.objects, m.nextId, m.st).Refused?
    ensures RunPhase(h, p, m).0 == Rejected
  {
  }

  // ---- Clients that only listen while they wait ---------------------------

  /** The dispatcher never queues anything. */
  ghost predicate Silent<S(!new)>(h: Handler<S>) {
    forall objects: Table, st: S, msg: Message, fd: int {:trigger h.handle(objects, st, msg, fd)} ::
      h.handle(objects, st, msg, fd).replies == [] && h.handle(objects, st, msg, fd).replyFds == []
  }

  ghost predicate SameOutput<S>(m: Machine<S>, r: Machine<S>) {
    r.q.outBuf == m.q.outBuf && r.q.outFds == m.q.outFds && r.sends == m.sends && r.shipped == m.shipped
  }

  lemma {:induction false} DrainIsSilent<S(!new)>(h: Handler<S>, done: S -> bool, m: Machine<S>)
    requires Silent(h)
    ensures SameOutput(m, Drain(h, done, m)) && Requests(Drain(h, done, m).log) == Requests(m.log)
    decreases |m.q.inBuf|
  {
    hide PeekMessageSize, Silent, Step, Requests;
    if !done(m.st) && PeekMessageSize(m.q.inBuf) != 0 {
      StepIsSilent(h, m);
      StepShrinks(h, m);
      DrainIsSilent(h, done, Step(h, m));
    }
  }

  lemma {:induction false} StepIsSilent<S(!new)>(h: Handler<S>, m: Machine<S>)
    requires Silent(h) && PeekMessageSize(m.q.inBuf) != 0
    ensures SameOutput(m, Step(h, m)) && Requests(Step(h, m).log) == Requests(m.log)
  {
    hide PeekMessageSize, DecodeMessage, EncodeRequests, Requests;
    var n := PeekMessageSize(m.q.inBuf);
    var msg := DecodeMessage(m.q.inBuf[..n]);
    var fd := if h.wants(m.objects, m.st, msg) then PoppedFd(m.q.inFds).0 else -1;
    var e := h.handle(m.objects, m.st, msg, fd);
    EncodeNothing();
    assert m.q.outBuf + [] == m.q.outBuf && m.q.outFds + [] == m.q.outFds;
    assert Step(h, m).log == m.log + [Event(msg, fd)] + QueuedItems([]);
    assert Step(h, m).log == m.log + [Event(msg, fd)];
    NoRequest(m.log, msg, fd);
  }

  lemma {:induction false} NoRequest(log: seq<LogItem>, msg: Message, fd: int)
    ensures Requests(log + [Event(msg, fd)]) == Requests(log)
  {
    RequestsConcat(log, [Event(msg, fd)]);
    var one: seq<LogItem> := [Event(msg, fd)];
    assert one[1..] == [];
    assert Requests(one) == [] + Requests([]) == [];
    assert Requests(log) + [] == Requests(log);
  }

  lemma {:induction false} EncodeNothing()
    ensures EncodeRequests([]) == []
  {
  }

  function EventItems(ps: seq<Packet>): (items: seq<LogItem>)
    ensures |items| == |ps|
  {
    seq(|ps|, i requires 0 <= i < |ps| => Event(ps[i].msg, FdOf(ps[i])))
  }

  /** The log of a silent client's one-shot reading is what it read. */
  lemma {:induction false} SilentFoldLog<S(!new)>(h: Handler<S>, done: S -> bool, objects: Table, st: S,
                                                  ps: seq<Packet>)
    requires Silent(h)
    ensures var f := FoldUntil(h, done, objects, st, ps);
            |f.rest| <= |ps| && f.log == EventItems(ps[..|ps| - |f.rest|])
    decreases |ps|
  {
    if !done(st) && ps != [] {
      var e := h.handle(objects, st, ps[0].msg, FdOf(ps[0]));
      SilentFoldLog(h, done, e.objects, e.st, ps[1..]);
      var f := FoldUntil(h, done, e.objects, e.st, ps[1..]);
      var n := |ps| - |f.rest|;
      assert ps[..n][1..] == ps[1..][..n - 1];
      assert EventItems(ps[..n]) == [Event(ps[0].msg, FdOf(ps[0]))] + QueuedItems([]) + EventItems(ps[1..][..n - 1]);
    }
  }

  /** A silent client's wait flushes once, for all practical purposes: it flows exactly if it is at its goal already or
      its first flush succeeds, and after that flush it sends nothing more. */
  lemma {:induction false} SilentRun<S(!new)>(h: Handler<S>, done: S -> bool, m: Machine<S>)
    requires Silent(h)
    ensures Flows(h, done, m) <==> done(m.st) || FlushMachine(m).0
    ensures var r := Run(h, done, m).1;
            SameOutput(if done(m.st) then m else FlushMachine(m).1, r) && Requests(r.log) == Requests(m.log)
    decreases |m.recvs|, |m.q.inBuf|
  {
    hide PeekMessageSize, FlushRun, Silent, Requests;
    var (sent, flushed) := FlushMachine(m);
    if !done(m.st) && sent {
      FlushEmpties(m);
      if PeekMessageSize(m.q.inBuf) != 0 {
        var d := Drain(h, done, flushed);
        DrainIsSilent(h, done, flushed);
        NothingToFlush(d);
        SilentRun(h, done, d);
      } else if Block(flushed).0 {
        NothingToFlush(Block(flushed).1);
        SilentRun(h, done, Block(flushed).1);
      }
    }
  }

  /** After a wait that had to be waited for, everything a silent client asked for has gone out. */
  lemma {:induction false} WaitEmpties<S(!new)>(h: Handler<S>, done: S -> bool, m: Machine<S>)
    requires Silent(h) && Flows(h, done, m) && !done(m.st)
    ensures Run(h, done, m).1.q.outBuf == []
  {
    hide FlushRun, Flows, Run, Silent;
    SilentRun(h, done, m);
    FlushEmpties(m);
  }

  lemma {:induction false} FlushEmpties<S>(m: Machine<S>)
    ensures var (sent, r) := FlushMachine(m); sent ==> r.q.outBuf == [] && r.q.outFds == []
  {
    hide FlushRun;
    FlushConserves(m.q.outBuf, m.q.outFds, m.sends);
  }

  lemma {:induction false} NothingToFlush<S>(m: Machine<S>)
    requires m.q.outBuf == [] && m.q.outFds == []
    ensures var (sent, r) := FlushMachine(m); sent && SameOutput(m, r)
  {
    assert m.shipped + [] == m.shipped;
  }

  // ---- A kernel that takes enough -----------------------------------------

  /** The sends that succeed before the first failing one; each takes at least one byte. */
  function Willing(sends: seq<SendAnswer>): nat {
    if sends == [] then 0
    else match sends[0]
      case Sent(_) => 1 + Willing(sends[1..])
      case SendInterrupted => Willing(sends[1..])
      case SendFailed => 0
  }

  /** As many successful sends as bytes are enough for a flush, if the descriptors fit one of them. */
  lemma {:induction false} WillingFlush(outBuf: seq<Byte>, outFds: seq<int>, sends: seq<SendAnswer>)
    requires |outFds| <= MAX_FDS_PER_MSG && (outFds != [] ==> outBuf != [])
    requires Willing(sends) >= |outBuf|
    ensures var f := FlushRun(outBuf, outFds, sends);
            f.ok && f.outBuf == [] && f.outFds == [] && Willing(f.sends) >= Willing(sends) - |outBuf|
    decreases |sends|
  {
    if outBuf != [] {
      match sends[0]
      case SendInterrupted => WillingFlush(outBuf, outFds, sends[1..]);
      case Sent(n) =>
        var b := NextBatch(outBuf, outFds, n);
        assert outFds[|b.fds|..] == [];
        WillingFlush(outBuf[|b.bytes|..], [], sends[1..]);
    }
  }

  /** A kernel that takes one byte at a time, n times. */
  function OneByOne(n: nat): seq<SendAnswer> {
    if n == 0 then [] else [Sent(1)] + OneByOne(n - 1)
  }

  lemma {:induction false} OneByOneWilling(n: nat)
    ensures Willing(OneByOne(n)) == n
    decreases n
  {
    if n > 0 {
      assert OneByOne(n)[1..] == OneByOne(n - 1);
      OneByOneWilling(n - 1);
    }
  }

  /** Descriptors are queued only with requests that are flushed at once, and at most one send's worth. */
  ghost predicate Light<S(!new)>(program: seq<Phase<S>>) {
    forall i: nat, objects: Table, nextId: U32, st: S {:trigger program[i].enter(objects, nextId, st)} ::
      i < |program| ==> LightEntry(program[i].enter(objects, nextId, st))
  }

  predicate LightEntry<S>(e: Entry<S>) {
    e.Entered? && e.fds != [] ==> e.eager && |e.fds| <= MAX_FDS_PER_MSG && EncodeRequests(e.reqs) != []
  }

  lemma {:induction false} LightParts<S(!new)>(program: seq<Phase<S>>, objects: Table, nextId: U32, st: S)
    requires program != [] && Light(program)
    ensures LightEntry(program[0].enter(objects, nextId, st)) && Light(program[1..])
  {
    hide LightEntry;
    forall i: nat, objects: Table, nextId: U32, st: S | i < |program[1..]|
      ensures LightEntry(program[1..][i].enter(objects, nextId, st))
    {
      assert program[1..][i] == program[i + 1];
    }
  }

  /** What the requests of a log weigh on the wire. */
  function Cost(log: seq<LogItem>): nat {
    |EncodeRequests(Requests(log))|
  }

  lemma {:induction false} CostConcat(a: seq<LogItem>, b: seq<LogItem>)
    ensures Cost(a + b) == Cost(a) + Cost(b)
  {
    hide Requests, EncodeRequests;
    RequestsConcat(a, b);
    EncodeRequestsConcat(Requests(a), Requests(b));
  }

  lemma {:induction false} CostOfQueued(rs: seq<Request>)
    ensures Cost(QueuedItems(rs)) == |EncodeRequests(rs)|
  {
    hide EncodeRequests;
    RequestsOfQueued(rs);
  }

  /** The bytes the kernel will still take beyond those already queued. */
  function Budget<S>(m: Machine<S>): int {
    Willing(m.sends) - |m.q.outBuf|
  }

  lemma {:induction false} FlushKeepsBudget<S>(m: Machine<S>)
    requires |m.q.outFds| <= MAX_FDS_PER_MSG && (m.q.outFds != [] ==> m.q.outBuf != []) && Budget(m) >= 0
    ensures var (ok, r) := FlushMachine(m); ok && Budget(r) >= Budget(m)
  {
    hide FlushRun, Willing;
    WillingFlush(m.q.outBuf, m.q.outFds, m.sends);
  }

  /** One phase of a silent client, with enough budget for its requests. */
  lemma {:induction false} PhaseIsPaid<S(!new)>(h: Handler<S>, p: Phase<S>, m: Machine<S>)
    requires Silent(h) && m.q.outFds == []
    requires var e := p.enter(m.objects, m.nextId, m.st);
             e.Entered? && LightEntry(e) && Budget(m) >= Cost(QueuedItems(e.reqs))
    ensures var e := p.enter(m.objects, m.nextId, m.st);
            var r := RunPhase(h, p, m).1;
            && Flows(h, p.done, EnterMachine(m, e)) && r.q.outFds == []
            && Budget(r) >= Budget(m) - Cost(QueuedItems(e.reqs))
            && Cost(r.log) == Cost(m.log) + Cost(QueuedItems(e.reqs))
  {
    hide EncodeRequests, Willing, FlushRun, Requests, Flows, Run, Silent;
    var e := p.enter(m.objects, m.nextId, m.st);
    CostOfQueued(e.reqs);
    CostConcat(m.log, QueuedItems(e.reqs));
    var queued := Posted(m.(objects := e.objects, nextId := e.nextId, st := e.st), e.reqs, e.fds);
    var entered := EnterMachine(m, e);
    EnterState(m, e);
    if e.eager {
      FlushKeepsBudget(queued);
      FlushEmpties(queued);
    }
    SilentRun(h, p.done, entered);
    FlushKeepsBudget(entered);
    FlushEmpties(entered);
  }

  /** A silent client flows if the kernel takes, before it first fails, as many sends as the run has bytes to send. */
  lemma {:induction false} WillingFlows<S(!new)>(h: Handler<S>, program: seq<Phase<S>>, m: Machine<S>)
    requires Silent(h) && Light(program) && m.q.outFds == []
    requires Budget(m) >= Cost(RunPhases(h, program, m).1.log) - Cost(m.log)
    ensures PhasesFlow(h, program, m)
    ensures var r := RunPhases(h, program, m).1;
            Budget(r) >= Budget(m) - (Cost(r.log) - Cost(m.log)) && r.q.outFds == []
    decreases |program|
  {
    hide EncodeRequests, Willing, FlushRun, Requests, Flows, Run, Silent, Light, LightEntry, Cost, Budget, EnterMachine;
    if program != [] {
      var p := program[0];
      LightParts(program, m.objects, m.nextId, m.st);
      var e := p.enter(m.objects, m.nextId, m.st);
      if e.Entered? {
        CostGrows(h, p, m);
        var (status, r) := RunPhase(h, p, m);
        if status.Completed? {
          LaterCostGrows(h, program[1..], r);
        }
        PhaseIsPaid(h, p, m);
        if status.Completed? {
          WillingFlows(h, program[1..], r);
        }
      } else {
        RefusedSendsNothing(h, p, m);
      }
    }
  }

  lemma {:induction false} RefusedSendsNothing<S>(h: Handler<S>, p: Phase<S>, m: Machine<S>)
    requires p.enter(m.objects, m.nextId, m.st).Refused?
    ensures var (status, r) := RunPhase(h, p, m);
            status == Rejected && Budget(r) == Budget(m) && r.log == m.log && r.q.outFds == m.q.outFds
  {
    hide Willing;
  }

  lemma {:induction false} CostGrows<S(!new)>(h: Handler<S>, p: Phase<S>, m: Machine<S>)
    requires Silent(h)
    ensures var e := p.enter(m.objects, m.nextId, m.st);
            Cost(RunPhase(h, p, m).1.log) == Cost(m.log) + if e.Entered? then Cost(QueuedItems(e.reqs)) else 0
  {
    hide EncodeRequests, Willing, FlushRun, Requests, Run, Silent, EnterMachine;
    var e := p.enter(m.objects, m.nextId, m.st);
    if e.Entered? {
      EnterState(m, e);
      SilentRun(h, p.done, EnterMachine(m, e));
      CostConcat(m.log, QueuedItems(e.reqs));
    } else {
      EnterRefused(m, e);
    }
  }

  lemma {:induction false} LaterCostGrows<S(!new)>(h: Handler<S>, program: seq<Phase<S>>, m: Machine<S>)
    requires Silent(h)
    ensures Cost(RunPhases(h, program, m).1.log) >= Cost(m.log)
    decreases |program|
  {
    hide Silent, Cost, RunPhase;
    if program != [] {
      CostGrows(h, program[0], m);
      LaterCostGrows(h, program[1..], RunPhase(h, program[0], m).1);
    }
  }

  /** A kernel that takes what the story has to send makes the run flow, whatever part of the story the run hears. */
  lemma {:induction false} StoryFlows<S(!new)>(h: Handler<S>, program: seq<Phase<S>>, m: Machine<S>, ps: seq<Packet>)
    requires Silent(h) && Light(program) && m.q.outFds == []
    requires Faithful(ps, m.q, m.recvs) && MatchedPhases(h, program, m.objects, m.nextId, m.st, ps)
    requires Budget(m) >= Cost(FoldPhases(h, program, m.objects, m.nextId, m.st, ps).log)
    ensures PhasesFlow(h, program, m)
    ensures var r := RunPhases(h, program, m).1;
            Budget(r) >= Budget(m) - (Cost(r.log) - Cost(m.log)) && r.q.outFds == []
  {
    hide Faithful, MatchedPhases, FoldPhases, RunPhases, Silent, Light, Cost, Budget;
    PhasesTransport(h, program, m, ps);
    var (status, r) := RunPhases(h, program, m);
    var s := FoldPhases(h, program, m.objects, m.nextId, m.st, ps);
    var told := r.log[|m.log|..];
    assert r.log == m.log + told && s.log == told + s.log[|told|..];
    CostConcat(m.log, told);
    CostConcat(told, s.log[|told|..]);
    WillingFlows(h, program, m);
  }

  // ---- Where descriptors are queued ---------------------------------------

  lemma {:induction false} PhasesQueueNoFds<S(!new)>(h: Handler<S>, program: seq<Phase<S>>, m: Machine<S>)
    requires Silent(h) && m.q.outFds == []
    requires forall i: nat, objects: Table, nextId: U32, st: S {:trigger program[i].enter(objects, nextId, st)} ::
               i < |program| && program[i].enter(objects, nextId, st).Entered? ==>
                   program[i].enter(objects, nextId, st).fds == []
    ensures RunPhases(h, program, m).1.q.outFds == []
    decreases |program|
  {
    hide FlushRun, Run, Silent, EncodeRequests;
    if program != [] {
      var e := program[0].enter(m.objects, m.nextId, m.st);
      var entered := EnterMachine(m, e);
      if e.Entered? {
        FlushQueuesNoFds(Posted(m.(objects := e.objects, nextId := e.nextId, st := e.st), e.reqs, e.fds));
        SilentRun(h, program[0].done, entered);
        FlushQueuesNoFds(entered);
      }
      assert forall i: nat | i < |program| - 1 :: program[1..][i] == program[i + 1];
      PhasesQueueNoFds(h, program[1..], RunPhase(h, program[0], m).1);
    }
  }

  lemma {:induction false} FlushQueuesNoFds<S>(m: Machine<S>)
    requires m.q.outFds == []
    ensures FlushMachine(m).1.q.outFds == []
  {
    FdsRideOnFirstSend(m.q.outBuf, [], m.sends);
  }
}
