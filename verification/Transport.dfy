/** Whole runs of the dispatch loop do not depend on how the peer's stream is cut into chunks. */
module Transport {
  import opened Bytes
  import opened Wire
  import opened Connections
  import opened Dispatching

  /** From m to r the run handled the packets of ps before rest: what the one-shot reading of ps logs and
      reaches from m is r's new log followed by what it logs and reaches from r on rest. */
  ghost predicate Carried<S>(h: Handler<S>, done: S -> bool, m: Machine<S>, r: Machine<S>, ps: seq<Packet>,
                             rest: seq<Packet>)
  {
    && m.log <= r.log
    && Matched(h, done, r.objects, r.st, rest)
    && var f := FoldUntil(h, done, r.objects, r.st, rest);
       FoldUntil(h, done, m.objects, m.st, ps) == f.(log := r.log[|m.log|..] + f.log)
  }

  lemma {:induction false} CarriedNothing<S>(h: Handler<S>, done: S -> bool, m: Machine<S>, r: Machine<S>,
                                             ps: seq<Packet>)
    requires Matched(h, done, m.objects, m.st, ps)
    requires r.objects == m.objects && r.st == m.st && r.log == m.log
    ensures Carried(h, done, m, r, ps, ps)
  {
    hide FoldUntil, Matched;
    var f := FoldUntil(h, done, m.objects, m.st, ps);
    assert [] + f.log == f.log;
  }

  lemma {:induction false} CarriedOn<S>(h: Handler<S>, done: S -> bool, a: Machine<S>, b: Machine<S>, c: Machine<S>,
                                        ps: seq<Packet>, mid: seq<Packet>, rest: seq<Packet>)
    requires Carried(h, done, a, b, ps, mid) && Carried(h, done, b, c, mid, rest)
    ensures Carried(h, done, a, c, ps, rest)
  {
    hide FoldUntil, Matched;
    var f := FoldUntil(h, done, c.objects, c.st, rest);
    assert c.log[|a.log|..] == b.log[|a.log|..] + c.log[|b.log|..];
    Assoc(b.log[|a.log|..], c.log[|b.log|..], f.log);
  }

  // ---- One packet ---------------------------------------------------------

  lemma {:induction false} EncodePacketsCons(p: Packet, ps: seq<Packet>)
    ensures EncodePackets([p] + ps) == EncodeMessage(p.msg) + EncodePackets(ps)
    ensures PacketFds([p] + ps) == (if p.fd.Some? then [p.fd.value] else []) + PacketFds(ps)
  {
    hide EncodeMessage;
    assert ([p] + ps)[1..] == ps;
  }

  lemma {:induction false} InTimeAfterFirst(ps: seq<Packet>, bytes: nat, fds: nat, chunks: seq<Batch>)
    requires ps != [] && |EncodeMessage(ps[0].msg)| <= bytes
    requires InTime(ps, bytes, fds, chunks)
    ensures ps[0].fd.Some? ==> fds > 0
    ensures InTime(ps[1..], bytes - |EncodeMessage(ps[0].msg)|, if ps[0].fd.Some? then fds - 1 else fds, chunks)
    decreases |chunks|
  {
    hide EncodeMessage;
    var n := |EncodeMessage(ps[0].msg)|;
    assert ps[..1] == [ps[0]] + [];
    EncodePacketsCons(ps[0], []);
    forall k | 0 <= k <= |ps[1..]| && |EncodePackets(ps[1..][..k])| <= bytes - n
      ensures |PacketFds(ps[1..][..k])| <= if ps[0].fd.Some? then fds - 1 else fds
    {
      assert ps[..k + 1] == [ps[0]] + ps[1..][..k];
      EncodePacketsCons(ps[0], ps[1..][..k]);
    }
    if chunks != [] {
      InTimeAfterFirst(ps, bytes + |chunks[0].bytes|, fds + |chunks[0].fds|, chunks[1..]);
    }
  }

  /** A prefix of an encoded stream that shows a complete message starts with the stream's first message. */
  lemma {:induction false} FrontOfStream(ps: seq<Packet>, buf: seq<Byte>, more: seq<Byte>)
    requires forall p | p in ps :: Fits(p.msg)
    requires PeekMessageSize(buf) != 0
    requires buf + more <= EncodePackets(ps)
    ensures ps != []
    ensures var e := EncodeMessage(ps[0].msg);
            && PeekMessageSize(buf) == |e| && buf[..|e|] == e && DecodeMessage(e) == ps[0].msg
            && buf[|e|..] + more <= EncodePackets(ps[1..])
  {
    hide EncodeMessage, DecodeMessage, FromLe32;
    var e := EncodeMessage(ps[0].msg);
    var tail := EncodePackets(ps[1..]);
    DecodeOfEncoding(ps[0].msg);
    EncodedLength(ps[0].msg);
    FrontMessage(ps[0].msg, tail);
    assert buf[4..8] == (e + tail)[4..8];
    assert buf == (e + tail)[..|buf|];
    assert buf[|e|..] + more == (buf + more)[|e|..];
    assert (e + tail)[|e|..] == tail;
  }

  /** The queues once packet p has been taken off their front. */
  function Taking(q: Queues, p: Packet): Queues
    requires |EncodeMessage(p.msg)| <= |q.inBuf| && (p.fd.Some? ==> q.inFds != [])
  {
    q.(inBuf := q.inBuf[|EncodeMessage(p.msg)|..], inFds := if p.fd.Some? then q.inFds[1..] else q.inFds)
  }

  /** The front message is the peer's next packet, and if it carries a descriptor, that one is next in line. */
  lemma {:induction false} FrontPacket(ps: seq<Packet>, q: Queues, recvs: seq<RecvAnswer>)
    requires Faithful(ps, q, recvs) && PeekMessageSize(q.inBuf) != 0
    ensures ps != [] && PeekMessageSize(q.inBuf) == |EncodeMessage(ps[0].msg)|
    ensures DecodeMessage(q.inBuf[..PeekMessageSize(q.inBuf)]) == ps[0].msg
    ensures ps[0].fd.Some? ==> q.inFds != [] && PoppedFd(q.inFds) == (ps[0].fd.value, q.inFds[1..])
    ensures Faithful(ps[1..], Taking(q, ps[0]), recvs)
  {
    hide EncodeMessage, DecodeMessage, PeekMessageSize, InTime;
    var chunks := Incoming(recvs);
    FrontOfStream(ps, q.inBuf, BatchBytes(chunks));
    InTimeAfterFirst(ps, |q.inBuf|, |q.inFds|, chunks);
    var q' := Taking(q, ps[0]);
    if ps[0].fd.Some? {
      assert PacketFds(ps)[0] == (q.inFds + BatchFds(chunks))[0] == q.inFds[0];
      assert q'.inFds + BatchFds(chunks) == (q.inFds + BatchFds(chunks))[1..];
      assert PacketFds(ps)[1..] == PacketFds(ps[1..]);
    }
  }

  lemma {:induction false} StepTransports<S>(h: Handler<S>, done: S -> bool, m: Machine<S>, ps: seq<Packet>)
    requires Faithful(ps, m.q, m.recvs) && Matched(h, done, m.objects, m.st, ps)
    requires !done(m.st) && PeekMessageSize(m.q.inBuf) != 0
    ensures ps != [] && var r := Step(h, m);
            && Faithful(ps[1..], r.q, r.recvs) && Carried(h, done, m, r, ps, ps[1..])
  {
    hide EncodeMessage, DecodeMessage, PeekMessageSize, Faithful, EncodeRequests;
    FrontPacket(ps, m.q, m.recvs);
    var r := Step(h, m);
    var e := h.handle(m.objects, m.st, ps[0].msg, FdOf(ps[0]));
    var items := [Event(ps[0].msg, FdOf(ps[0]))] + QueuedItems(e.replies);
    assert r.log == m.log + items;
    assert r.log[|m.log|..] == items;
    SameInput(ps[1..], Taking(m.q, ps[0]), r.q, r.recvs);
  }

  /** Faithfulness looks at the input queues only. */
  lemma {:induction false} SameInput(ps: seq<Packet>, q: Queues, q': Queues, recvs: seq<RecvAnswer>)
    requires q'.inBuf == q.inBuf && q'.inFds == q.inFds
    ensures Faithful(ps, q, recvs) == Faithful(ps, q', recvs)
  {
  }

  lemma {:induction false} DrainTransports<S>(h: Handler<S>, done: S -> bool, m: Machine<S>, ps: seq<Packet>)
    returns (rest: seq<Packet>)
    requires Faithful(ps, m.q, m.recvs) && Matched(h, done, m.objects, m.st, ps)
    ensures var r := Drain(h, done, m);
            Faithful(rest, r.q, r.recvs) && Carried(h, done, m, r, ps, rest)
    decreases |m.q.inBuf|
  {
    hide DecodeMessage, PeekMessageSize, Faithful, EncodeRequests, Carried;
    if done(m.st) || PeekMessageSize(m.q.inBuf) == 0 {
      rest := ps;
      CarriedNothing(h, done, m, m, ps);
    } else {
      var r := Step(h, m);
      StepTransports(h, done, m, ps);
      assert Matched(h, done, r.objects, r.st, ps[1..]) by { CarriedMatches(h, done, m, r, ps, ps[1..]); }
      rest := DrainTransports(h, done, r, ps[1..]);
      CarriedOn(h, done, m, r, Drain(h, done, m), ps, ps[1..], rest);
    }
  }

  lemma {:induction false} CarriedMatches<S>(h: Handler<S>, done: S -> bool, m: Machine<S>, r: Machine<S>,
                                             ps: seq<Packet>, rest: seq<Packet>)
    requires Carried(h, done, m, r, ps, rest)
    ensures Matched(h, done, r.objects, r.st, rest)
  {
  }

  /** One more chunk keeps the input faithful. */
  lemma {:induction false} ReceiveKeepsFaithful(ps: seq<Packet>, q: Queues, recvs: seq<RecvAnswer>, q': Queues)
    requires Faithful(ps, q, recvs) && recvs != [] && recvs[0].Got?
    requires q'.inBuf == q.inBuf + recvs[0].chunk.bytes && q'.inFds == q.inFds + recvs[0].chunk.fds
    ensures Faithful(ps, q', recvs[1..])
  {
    hide EncodePackets, PacketFds;
    var c: Batch := recvs[0].chunk;
    var chunks := Incoming(recvs[1..]);
    BatchesCons(c, chunks);
    Assoc(q.inBuf, c.bytes, BatchBytes(chunks));
    Assoc(q.inFds, c.fds, BatchFds(chunks));
  }

  // ---- Whole runs ---------------------------------------------------------

  /** End-to-end transport and descriptor pairing. However the peer's stream is chunked, and whatever the
      sends do, a run handles packets from the front of ps, in order, each message whole and with its own
      descriptor; if it reaches its goal it stands where the one-shot reading of ps stands, and the next run
      starts from a faithful remainder. */
  lemma {:induction false} RunTransports<S>(h: Handler<S>, done: S -> bool, m: Machine<S>, ps: seq<Packet>)
    returns (rest: seq<Packet>)
    requires Faithful(ps, m.q, m.recvs) && Matched(h, done, m.objects, m.st, ps)
    ensures var (ok, r) := Run(h, done, m);
            && Carried(h, done, m, r, ps, rest)
            && (ok ==> Faithful(rest, r.q, r.recvs))
            && (ok ==> FoldUntil(h, done, m.objects, m.st, ps) == Folded(true, r.objects, r.st, rest, r.log[|m.log|..]))
    decreases |m.recvs|, |m.q.inBuf|
  {
    hide PeekMessageSize, Faithful, EncodeRequests, Carried, Matched, FoldUntil, FlushRun;
    rest := ps;
    var (sent, flushed) := FlushMachine(m);
    if done(m.st) || !sent {
      CarriedNothing(h, done, m, Run(h, done, m).1, ps);
    } else {
      SameInput(ps, m.q, flushed.q, m.recvs);
      CarriedNothing(h, done, m, flushed, ps);
      if PeekMessageSize(m.q.inBuf) != 0 {
        rest := DrainTransports(h, done, flushed, ps);
        var d := Drain(h, done, flushed);
        CarriedOn(h, done, m, flushed, d, ps, ps, rest);
        CarriedMatches(h, done, m, d, ps, rest);
        var rest' := RunTransports(h, done, d, rest);
        CarriedOn(h, done, m, d, Run(h, done, m).1, ps, rest, rest');
        rest := rest';
      } else {
        var (more, got) := Block(flushed);
        CarriedNothing(h, done, m, got, ps);
        if more {
          ReceiveKeepsFaithful(ps, flushed.q, flushed.recvs, got.q);
          rest := RunTransports(h, done, got, ps);
          CarriedOn(h, done, m, got, Run(h, done, m).1, ps, ps, rest);
        }
      }
    }
    CarriedToGoal(h, done, m, ps, rest);
  }

  lemma {:induction false} CarriedToGoal<S>(h: Handler<S>, done: S -> bool, m: Machine<S>, ps: seq<Packet>,
                                            rest: seq<Packet>)
    requires Carried(h, done, m, Run(h, done, m).1, ps, rest)
    ensures var (ok, r) := Run(h, done, m);
            ok ==> FoldUntil(h, done, m.objects, m.st, ps) == Folded(true, r.objects, r.st, rest, r.log[|m.log|..])
  {
    hide Run, Matched;
    RunWaitsSafely(h, done, m);
    var r := Run(h, done, m).1;
    assert r.log[|m.log|..] + [] == r.log[|m.log|..];
  }

  /** Chunking and sending are invisible: two runs over the same packets from the same state that both
      reach the goal agree on everything the client can observe. */
  lemma {:induction false} RunsAgree<S>(h: Handler<S>, done: S -> bool, m: Machine<S>, m': Machine<S>, ps: seq<Packet>)
    requires Faithful(ps, m.q, m.recvs) && Faithful(ps, m'.q, m'.recvs)
    requires Matched(h, done, m.objects, m.st, ps)
    requires m'.objects == m.objects && m'.st == m.st && m'.log == m.log
    requires Run(h, done, m).0 && Run(h, done, m').0
    ensures var (r, r') := (Run(h, done, m).1, Run(h, done, m').1);
            r'.objects == r.objects && r'.st == r.st && r'.log == r.log
  {
    hide Faithful, Matched, Run, FoldUntil;
    var rest := RunTransports(h, done, m, ps);
    var rest' := RunTransports(h, done, m', ps);
    var (r, r') := (Run(h, done, m).1, Run(h, done, m').1);
    assert m.log <= r.log && m.log <= r'.log;
    assert r.log == m.log + r.log[|m.log|..];
    assert r'.log == m.log + r'.log[|m.log|..];
  }

  // ---- From a flush to a receiver -----------------------------------------

  lemma {:induction false} PacketsPrefix(ps: seq<Packet>, k: nat)
    requires k <= |ps|
    ensures |PacketFds(ps[..k])| <= |PacketFds(ps)|
    ensures if k > 0 then |EncodePackets(ps[..k])| > 0 else PacketFds(ps[..k]) == []
    decreases k
  {
    hide EncodeMessage;
    if k > 0 {
      assert ps[..k][0] == ps[0] && ps[..k][1..] == ps[1..][..k - 1];
      PacketsPrefix(ps[1..], k - 1);
      EncodedLength(ps[0].msg);
    }
  }

  lemma {:induction false} AllFdsAreInTime(ps: seq<Packet>, bytes: nat, fds: nat, chunks: seq<Batch>)
    requires fds >= |PacketFds(ps)|
    ensures InTime(ps, bytes, fds, chunks)
    decreases |chunks|
  {
    hide EncodePackets, PacketFds;
    forall k | 0 <= k <= |ps| ensures |PacketFds(ps[..k])| <= fds { PacketsPrefix(ps, k); }
    if chunks != [] {
      AllFdsAreInTime(ps, bytes + |chunks[0].bytes|, fds + |chunks[0].fds|, chunks[1..]);
    }
  }

  lemma {:induction false} NothingYetIsInTime(ps: seq<Packet>)
    ensures forall k | 0 <= k <= |ps| :: |EncodePackets(ps[..k])| <= 0 ==> |PacketFds(ps[..k])| <= 0
  {
    hide EncodePackets, PacketFds;
    forall k | 0 <= k <= |ps| && |EncodePackets(ps[..k])| <= 0 ensures |PacketFds(ps[..k])| <= 0 {
      PacketsPrefix(ps, k);
    }
  }

  /** A flush on this side makes a faithful stream for the other. Let packets with at most 28 descriptors be queued
      and flushed, through any partial sends and even if the flush then fails, and let the receiver get what went out
      in any chunks, the descriptors with the first bytes of the send that carried them: then its input is faithful,
      so by RunTransports it dispatches these packets in order, each with its own descriptor. */
  lemma {:induction false} SentStreamIsFaithful(ps: seq<Packet>, sends: seq<SendAnswer>, recvs: seq<RecvAnswer>)
    requires forall p | p in ps :: Fits(p.msg)
    requires |PacketFds(ps)| <= MAX_FDS_PER_MSG
    requires var f := FlushRun(EncodePackets(ps), PacketFds(ps), sends);
             var chunks := Incoming(recvs);
             && BatchBytes(chunks) <= BatchBytes(f.batches)
             && (chunks != [] && f.batches != [] ==> chunks[0].fds == f.batches[0].fds && BatchFds(chunks[1..]) == [])
    ensures Faithful(ps, Queues([], [], [], []), recvs)
  {
    hide EncodePackets, PacketFds, FlushRun, InTime;
    var f := FlushRun(EncodePackets(ps), PacketFds(ps), sends);
    var chunks := Incoming(recvs);
    FlushConserves(EncodePackets(ps), PacketFds(ps), sends);
    FdsRideOnFirstSend(EncodePackets(ps), PacketFds(ps), sends);
    assert [] + BatchBytes(chunks) == BatchBytes(chunks);
    assert [] + BatchFds(chunks) == BatchFds(chunks);
    NothingYetIsInTime(ps);
    if chunks != [] {
      assert |chunks[0].bytes| >= 1;
      assert f.batches != [];
      assert BatchFds(chunks) == chunks[0].fds + [] == PacketFds(ps);
      AllFdsAreInTime(ps, |chunks[0].bytes|, |chunks[0].fds|, chunks[1..]);
    }
    assert InTime(ps, 0, 0, chunks) by { InTimeIntro(ps, chunks); }
  }

  lemma {:induction false} InTimeIntro(ps: seq<Packet>, chunks: seq<Batch>)
    requires forall k | 0 <= k <= |ps| :: |EncodePackets(ps[..k])| <= 0 ==> |PacketFds(ps[..k])| <= 0
    requires chunks != [] ==> InTime(ps, |chunks[0].bytes|, |chunks[0].fds|, chunks[1..])
    ensures InTime(ps, 0, 0, chunks)
  {
    hide EncodePackets, PacketFds;
  }
}
