/** When a copy stops, what it served, and what it returns. */
module CopyRuns {
  import opened Bytes
  import opened Wire
  import opened Connections
  import opened Dispatching
  import opened Clients
  import opened Phases
  import opened Completion
  import opened Mime
  import opened Handcrafted
  import opened SyncBarrier

  /** The id bootstrap leaves for the source. */
  const SOURCE: U32 := 7

  // ---- The peer's packets, without any client state -----------------------

  predicate IsSend(p: Packet) {
    p.msg.id == SOURCE && p.msg.opcode == 0
  }

  predicate IsCancel(p: Packet) {
    p.msg.id == SOURCE && p.msg.opcode == 1
  }

  function Sends(ps: seq<Packet>): nat {
    if ps == [] then 0 else (if IsSend(ps[0]) then 1 else 0) + Sends(ps[1..])
  }

  function Cancels(ps: seq<Packet>): nat {
    if ps == [] then 0 else (if IsCancel(ps[0]) then 1 else 0) + Cancels(ps[1..])
  }

  /** The descriptors that came with the send events, in order. */
  function SendFds(ps: seq<Packet>): seq<int> {
    if ps == [] then []
    else (if IsSend(ps[0]) && FdOf(ps[0]) >= 0 then [FdOf(ps[0])] else []) + SendFds(ps[1..])
  }

  /** A copy that has seen these packets, after earlier ones, is over: a oneshot copy has served someone, or
      the source was cancelled twice. */
  predicate Over(oneshot: bool, served: nat, cancels: nat, ps: seq<Packet>) {
    (oneshot && served + Sends(ps) >= 1) || cancels + Cancels(ps) >= 2
  }

  /** k packets are the fewest after which the copy is over. */
  ghost predicate StopsAt(oneshot: bool, served: nat, cancels: nat, ps: seq<Packet>, k: nat) {
    && k <= |ps| && Over(oneshot, served, cancels, ps[..k])
    && forall j | 0 <= j < k :: !Over(oneshot, served, cancels, ps[..j])
  }

  // ---- The serving phase --------------------------------------------------

  ghost predicate Serving(objects: Table, st: CopySession) {
    && KindIn(objects, SOURCE) == Source
    && (forall id | id in objects && objects[id] == Source :: id == SOURCE)
    && (forall id | id in objects && objects[id] == Display :: id == DISPLAY_ID)
    && !st.ext.done && !st.ext.cancelled && st.ext.cancelCount <= 1
    && (st.ext.oneshot ==> st.ext.served == 0)
  }

  /** The state a serving copy reaches after these packets. */
  ghost predicate Served(st: CopySession, seen: seq<Packet>, st': CopySession) {
    && st'.ext.served == st.ext.served + Sends(seen)
    && st'.ext.cancelCount == st.ext.cancelCount + Cancels(seen)
    && st'.ext.cancelled == (st.ext.cancelCount + Cancels(seen) >= 2)
    && st'.ext.answered == st.ext.answered + SendFds(seen)
    && st'.ext.oneshot == st.ext.oneshot
  }

  lemma {:induction false} OneServed(objects: Table, st: CopySession, p: Packet)
    requires Serving(objects, st) && Spared([p], {SOURCE})
    ensures var e := CopyHandle(objects, st, p.msg, FdOf(p));
            && e.replies == [] && Served(st, [p], e.st)
            && (e.st.ext.done <==> Over(st.ext.oneshot, st.ext.served, st.ext.cancelCount, [p]))
            && (!e.st.ext.done ==> Serving(e.objects, e.st))
  {
    hide AdvertOf, Word, Text, NoteGlobal;
    assert [p][1..] == [];
    assert p in [p];
    assert Sends([p]) == if IsSend(p) then 1 else 0;
    assert Cancels([p]) == if IsCancel(p) then 1 else 0;
    assert SendFds([p]) == if IsSend(p) && FdOf(p) >= 0 then [FdOf(p)] else [];
    assert st.ext.answered + [] == st.ext.answered;
    if KindIn(objects, p.msg.id) == Display && p.msg.opcode == 1 {
      assert !Deletes(p, SOURCE);
    }
  }

  lemma {:induction false} CountsCons(p: Packet, ps: seq<Packet>)
    ensures Sends([p] + ps) == Sends([p]) + Sends(ps)
    ensures Cancels([p] + ps) == Cancels([p]) + Cancels(ps)
    ensures SendFds([p] + ps) == SendFds([p]) + SendFds(ps)
  {
    assert ([p] + ps)[1..] == ps && [p][1..] == [];
  }

  lemma {:induction false} ServedTwice(a: CopySession, p: Packet, b: CopySession, seen: seq<Packet>, c: CopySession)
    requires Served(a, [p], b) && Served(b, seen, c)
    ensures Served(a, [p] + seen, c)
  {
    hide Sends, Cancels, SendFds;
    CountsCons(p, seen);
    Assoc(a.ext.answered, SendFds([p]), SendFds(seen));
  }

  /** Stopping one packet later, from the state after the first. */
  lemma {:induction false} StopsLater(oneshot: bool, served: nat, cancels: nat, p: Packet, rest: seq<Packet>, k: nat)
    requires !Over(oneshot, served, cancels, []) && !Over(oneshot, served, cancels, [p])
    requires StopsAt(oneshot, served + Sends([p]), cancels + Cancels([p]), rest, k)
    ensures StopsAt(oneshot, served, cancels, [p] + rest, k + 1)
  {
    hide Sends, Cancels;
    var ps := [p] + rest;
    assert ps[..k + 1] == [p] + rest[..k];
    CountsCons(p, rest[..k]);
    forall j | 0 <= j < k + 1 ensures !Over(oneshot, served, cancels, ps[..j]) {
      if j == 0 {
        assert ps[..0] == [];
      } else {
        assert ps[..j] == [p] + rest[..j - 1];
        CountsCons(p, rest[..j - 1]);
      }
    }
  }

  lemma {:induction false} SparedParts(ps: seq<Packet>, ids: set<U32>)
    requires ps != [] && Spared(ps, ids)
    ensures Spared([ps[0]], ids) && Spared(ps[1..], ids)
  {
    assert forall q | q in ps[1..] || q in [ps[0]] :: q in ps;
  }

  lemma {:induction false} OverCons(oneshot: bool, served: nat, cancels: nat, p: Packet, rest: seq<Packet>)
    ensures Over(oneshot, served, cancels, [p] + rest)
       <==> Over(oneshot, served + Sends([p]), cancels + Cancels([p]), rest)
    ensures Over(oneshot, served, cancels, [p]) ==> Over(oneshot, served, cancels, [p] + rest)
  {
    hide Sends, Cancels;
    CountsCons(p, rest);
  }

  /** The serving phase over any packets that spare the source: it stops at the first point where it is over,
      and not before; on the way it counted every send and every cancel, answering each send on its own
      descriptor. `k` is the number of packets it handled. */
  lemma {:induction false} ServingRun(objects: Table, st: CopySession, ps: seq<Packet>) returns (k: nat)
    requires Serving(objects, st) && Spared(ps, {SOURCE})
    ensures var f := FoldUntil(CopyDispatcher(), CopyDone(), objects, st, ps);
            && k <= |ps| && f.rest == ps[k..] && Served(st, ps[..k], f.st)
            && (f.stopped ==> StopsAt(st.ext.oneshot, st.ext.served, st.ext.cancelCount, ps, k))
            && (!f.stopped ==> k == |ps|)
            && (f.stopped <==> Over(st.ext.oneshot, st.ext.served, st.ext.cancelCount, ps))
    decreases |ps|
  {
    hide CopyHandle, Serving, Served, Over, Spared, StopsAt, Sends, Cancels, SendFds, QueuedItems;
    var h := CopyDispatcher();
    ServingOpen(objects, st);
    if ps == [] {
      k := 0;
      ServedNothing(st);
      assert ps[..0] == [];
    } else {
      var p, rest := ps[0], ps[1..];
      SparedParts(ps, {SOURCE});
      OneServed(objects, st, p);
      var e := CopyHandle(objects, st, p.msg, FdOf(p));
      assert h.handle(objects, st, p.msg, FdOf(p)) == e;
      assert [p] + rest == ps && ps[..1] == [p];
      OverCons(st.ext.oneshot, st.ext.served, st.ext.cancelCount, p, rest);
      if e.st.ext.done {
        k := 1;
        StopsAtOnce(st, ps);
      } else {
        var k' := ServingRun(e.objects, e.st, rest);
        k := k' + 1;
        var f := FoldUntil(h, CopyDone(), e.objects, e.st, rest);
        assert ps[..k] == [p] + rest[..k'];
        ServedTwice(st, p, e.st, rest[..k'], f.st);
        ServedCounts(st, p, e.st);
        if f.stopped {
          StopsLater(st.ext.oneshot, st.ext.served, st.ext.cancelCount, p, rest, k');
        }
      }
    }
  }

  lemma {:induction false} ServingOpen(objects: Table, st: CopySession)
    requires Serving(objects, st)
    ensures !st.ext.done && !Over(st.ext.oneshot, st.ext.served, st.ext.cancelCount, [])
    ensures !st.ext.cancelled && st.ext.cancelCount <= 1
  {
  }

  lemma {:induction false} ServedNothing(st: CopySession)
    requires st.ext.cancelled == (st.ext.cancelCount >= 2)
    ensures Served(st, [], st)
  {
    assert st.ext.answered + [] == st.ext.answered;
  }

  lemma {:induction false} ServedCounts(st: CopySession, p: Packet, st': CopySession)
    requires Served(st, [p], st')
    ensures st'.ext.served == st.ext.served + Sends([p]) && st'.ext.cancelCount == st.ext.cancelCount + Cancels([p])
    ensures st'.ext.oneshot == st.ext.oneshot
  {
    hide Sends, Cancels, SendFds;
  }

  lemma {:induction false} StopsAtOnce(st: CopySession, ps: seq<Packet>)
    requires ps != [] && !Over(st.ext.oneshot, st.ext.served, st.ext.cancelCount, [])
    requires Over(st.ext.oneshot, st.ext.served, st.ext.cancelCount, [ps[0]])
    ensures StopsAt(st.ext.oneshot, st.ext.served, st.ext.cancelCount, ps, 1)
  {
    hide Over;
    assert ps[..1] == [ps[0]] && ps[..0] == [];
  }

  // ---- Whole copy runs ----------------------------------------------------

  /** A copy that stopped after k packets of ps, in state st, returning ok. */
  ghost predicate CopyOutcome(oneshot: bool, ps: seq<Packet>, k: nat, st: CopySession, ok: bool) {
    && StopsAt(oneshot, 0, 0, ps, k)
    && st.ext.served == Sends(ps[..k])
    && st.ext.answered == SendFds(ps[..k])
    && (ok <==> Sends(ps[..k]) >= 1)
  }

  /** Whether a copy that reads these packets to their end is over by then. */
  ghost predicate CopyEnds(selector: Name, sel: Selection, mimes: seq<Name>, oneshot: bool, ps: seq<Packet>) {
    Reaches(selector, sel, ps) && mimes != [] && Over(oneshot, 0, 0, BarriersOf(ps).rest)
  }

  lemma {:induction false} CopyStory(selector: Name, sel: Selection, bytes: seq<Byte>, mimes: seq<Name>, oneshot: bool,
                                     ps: seq<Packet>)
    returns (k: nat)
    requires BootSpared(BarriersOf(ps)) && Spared(BarriersOf(ps).rest, {SOURCE})
    ensures var s := FoldPhases(CopyDispatcher(), CopyProgram(selector, sel), map[DISPLAY_ID := Display], CLIENT_ID_MIN,
                                NewCopy(bytes, mimes, oneshot), ps);
            && (s.status.Completed? <==> CopyEnds(selector, sel, mimes, oneshot, ps))
            && (s.status.Completed? ==> CopyOutcome(oneshot, BarriersOf(ps).rest, k, s.st, CopyVerdict(s.status, s.st)))
  {
    hide FoldPhase, FoldPhases, BarriersOf, BootSpared, Spared, NameMatches, Bootstrap, CopyPhase, CopyOutcome, Over,
      PickSeat, GlobalsIn, NameIn, BootRequests;
    var h, st0 := CopyDispatcher(), NewCopy(bytes, mimes, oneshot);
    CopyActsCommon();
    BootstrapStory(h, st0.ext, selector, ps);
    var p := CopyPhase(selector, sel);
    StoriesConcat(h, Bootstrap<CopyState>(selector), [p], map[DISPLAY_ID := Display], CLIENT_ID_MIN, st0, ps);
    var s := FoldPhases(h, Bootstrap<CopyState>(selector), map[DISPLAY_ID := Display], CLIENT_ID_MIN, st0, ps);
    k := 0;
    if s.status.Completed? {
      OneStory(h, p, s.objects, s.nextId, s.st, s.rest);
      k := CopyPhaseStory(selector, sel, s.objects, s.st, s.rest);
    }
  }

  lemma {:induction false} CopyPhaseStory(selector: Name, sel: Selection, objects: Table, st: CopySession,
                                          ps: seq<Packet>)
    returns (k: nat)
    requires BootedTable(objects)
    requires !st.ext.done && !st.ext.cancelled && st.ext.cancelCount == 0 && st.ext.served == 0 && st.ext.answered == []
    requires Spared(ps, {SOURCE})
    ensures var s := FoldPhase(CopyDispatcher(), CopyPhase(selector, sel), objects, SOURCE, st, ps);
            && (s.status.Completed? <==>
                  && NameMatches(selector, st.seatName) && (sel.Primary? ==> st.managerVersion >= 2)
                  && st.ext.mimes != []
                  && Over(st.ext.oneshot, 0, 0, ps))
            && (s.status.Completed? ==> CopyOutcome(st.ext.oneshot, ps, k, s.st, CopyVerdict(s.status, s.st)))
  {
    hide FoldUntil, Spared, NameMatches, StopsAt, Over, Sends, Cancels, SendFds;
    k := 0;
    var e := EnterCopy(selector, sel, objects, SOURCE, st);
    if e.Refused? {
      return;
    }
    assert Serving(e.objects, e.st);
    k := ServingRun(e.objects, e.st, ps);
    var f := FoldUntil(CopyDispatcher(), CopyDone(), e.objects, e.st, ps);
    assert [] + SendFds(ps[..k]) == SendFds(ps[..k]);
    OverMeans(st.ext.oneshot, ps, k);
  }

  /** A copy that is over without having served anyone was cancelled twice. */
  lemma {:induction false} OverMeans(oneshot: bool, ps: seq<Packet>, k: nat)
    ensures StopsAt(oneshot, 0, 0, ps, k) && Sends(ps[..k]) == 0 ==> Cancels(ps[..k]) >= 2
  {
    hide Sends, Cancels;
  }

  lemma {:induction false} CopyIsLight(selector: Name, sel: Selection)
    ensures Silent(CopyDispatcher()) && Light(CopyProgram(selector, sel))
  {
    hide NoteGlobal, AdvertOf, OnSource, Word, Text, NameMatches, PickSeat, EncodeRequests;
  }

  /** Every copy run over a faithful stream, however chunked: if it completes, it stopped at the first point
      after the second barrier where oneshot had seen a send or two cancels had come (the first cancel alone
      never stops it), it answered each send up to there on that send's own descriptor, and it returns true
      exactly when there was at least one; one that does not complete returns false. A run that is not cut off completes
      exactly when the packets alone say so, and one that gets the whole stream exactly when they do and the kernel
      takes what it flushes. */
  lemma {:induction false} CopyReturns(selector: Name, sel: Selection, bytes: seq<Byte>, mimes: seq<Name>,
                                       oneshot: bool, sends: seq<SendAnswer>, recvs: seq<RecvAnswer>,
                                       ps: seq<Packet>) returns (k: nat)
    requires Faithful(ps, Queues([], [], [], []), recvs)
    requires MatchedPhases(CopyDispatcher(), CopyProgram(selector, sel), map[DISPLAY_ID := Display], CLIENT_ID_MIN,
                           NewCopy(bytes, mimes, oneshot), ps)
    requires BootSpared(BarriersOf(ps)) && Spared(BarriersOf(ps).rest, {SOURCE})
    ensures var m := NewMachine(NewCopy(bytes, mimes, oneshot), sends, recvs);
            var (status, r) := RunPhases(CopyDispatcher(), CopyProgram(selector, sel), m);
            && (if status.Completed? then CopyOutcome(oneshot, BarriersOf(ps).rest, k, r.st, CopyVerdict(status, r.st))
                else !CopyVerdict(status, r.st))
            && (!status.Lost? ==> (status.Completed? <==> CopyEnds(selector, sel, mimes, oneshot, ps)))
            && (Whole(ps, m.q, m.recvs) ==>
                  (status.Completed? <==>
                     && CopyEnds(selector, sel, mimes, oneshot, ps)
                     && PhasesFlow(CopyDispatcher(), CopyProgram(selector, sel), m)))
  {
    hide CopyEnds, RunPhases, FoldPhases, MatchedPhases, BarriersOf, BootSpared, Spared, CopyProgram, Faithful,
      CopyOutcome, Whole, PhasesFlow;
    var m := NewMachine(NewCopy(bytes, mimes, oneshot), sends, recvs);
    PhasesTransport(CopyDispatcher(), CopyProgram(selector, sel), m, ps);
    k := CopyStory(selector, sel, bytes, mimes, oneshot, ps);
    if Whole(ps, m.q, m.recvs) {
      PhasesComplete(CopyDispatcher(), CopyProgram(selector, sel), m, ps);
    }
  }

  // ---- Descriptors received -----------------------------------------------

  /** The descriptors these answers bring. */
  function ChunkFds(recvs: seq<RecvAnswer>): seq<int> {
    if recvs == [] then []
    else (if recvs[0].Got? then recvs[0].chunk.fds else []) + ChunkFds(recvs[1..])
  }

  /** The descriptors answered, queued, and still to come, in this order. */
  function FdsAround(m: Machine<CopySession>): seq<int> {
    m.st.ext.answered + m.q.inFds + ChunkFds(m.recvs)
  }

  ghost predicate FdsValid(m: Machine<CopySession>) {
    forall fd | fd in m.q.inFds + ChunkFds(m.recvs) :: fd >= 0
  }

  lemma {:induction false} StepKeepsFds(m: Machine<CopySession>)
    requires PeekMessageSize(m.q.inBuf) != 0 && FdsValid(m)
    ensures var r := Step(CopyDispatcher(), m); FdsAround(r) == FdsAround(m) && FdsValid(r) && r.recvs == m.recvs
  {
    hide PeekMessageSize, DecodeMessage, ChunkFds, EncodeRequests, NoteGlobal, AdvertOf, Word, Text;
    var msg := DecodeMessage(m.q.inBuf[..PeekMessageSize(m.q.inBuf)]);
    var r := Step(CopyDispatcher(), m);
    if CopyWants(m.objects, m.st, msg) && m.q.inFds != [] {
      assert m.q.inFds == [m.q.inFds[0]] + m.q.inFds[1..];
      assert m.q.inFds[0] in m.q.inFds + ChunkFds(m.recvs);
      assert r.st.ext.answered == m.st.ext.answered + [m.q.inFds[0]] && r.q.inFds == m.q.inFds[1..];
      forall fd | fd in r.q.inFds + ChunkFds(r.recvs) ensures fd >= 0 {
        assert fd in m.q.inFds || fd in ChunkFds(m.recvs);
        assert fd in m.q.inFds + ChunkFds(m.recvs);
      }
      Assoc(m.st.ext.answered, [m.q.inFds[0]], m.q.inFds[1..]);
    } else {
      assert r.st.ext.answered == m.st.ext.answered && r.q.inFds == m.q.inFds;
    }
  }

  lemma {:induction false} DrainKeepsFds(done: CopySession -> bool, m: Machine<CopySession>)
    requires FdsValid(m)
    ensures var r := Drain(CopyDispatcher(), done, m); FdsAround(r) == FdsAround(m) && FdsValid(r)
    decreases |m.q.inBuf|
  {
    hide PeekMessageSize, FdsAround, FdsValid, Step;
    if !done(m.st) && PeekMessageSize(m.q.inBuf) != 0 {
      StepKeepsFds(m);
      StepShrinks(CopyDispatcher(), m);
      DrainKeepsFds(done, Step(CopyDispatcher(), m));
    }
  }

  lemma {:induction false} BlockKeepsFds(m: Machine<CopySession>)
    requires FdsValid(m)
    ensures var r := Block(m).1; FdsAround(r) == FdsAround(m) && FdsValid(r)
  {
    if m.recvs != [] {
      var fds := if m.recvs[0].Got? then m.recvs[0].chunk.fds else [];
      Assoc(m.q.inFds, fds, ChunkFds(m.recvs[1..]));
      Assoc(m.st.ext.answered, m.q.inFds, fds);
      Assoc(m.st.ext.answered + m.q.inFds, fds, ChunkFds(m.recvs[1..]));
      assert m.q.inFds + [] == m.q.inFds;
    }
  }

  lemma {:induction false} RunKeepsFds(done: CopySession -> bool, m: Machine<CopySession>)
    requires FdsValid(m)
    ensures var r := Run(CopyDispatcher(), done, m).1; FdsAround(r) == FdsAround(m) && FdsValid(r)
    decreases |m.recvs|, |m.q.inBuf|
  {
    hide PeekMessageSize, ChunkFds, FlushRun;
    var (sent, flushed) := FlushMachine(m);
    if !done(m.st) && sent {
      if PeekMessageSize(m.q.inBuf) != 0 {
        DrainKeepsFds(done, flushed);
        RunKeepsFds(done, Drain(CopyDispatcher(), done, flushed));
      } else {
        BlockKeepsFds(flushed);
        if Block(flushed).0 {
          RunKeepsFds(done, Block(flushed).1);
        }
      }
    }
  }

  lemma {:induction false} PhasesKeepFds(program: seq<Phase<CopySession>>, m: Machine<CopySession>)
    requires FdsValid(m)
    requires forall i: nat, objects: Table, nextId: U32,
             st: CopySession {:trigger program[i].enter(objects, nextId, st)} ::
               i < |program| ==> program[i].enter(objects, nextId, st).st.ext.answered == st.ext.answered
    ensures var r := RunPhases(CopyDispatcher(), program, m).1; FdsAround(r) == FdsAround(m) && FdsValid(r)
    decreases |program|
  {
    hide FlushRun, Run, EncodeRequests, ChunkFds;
    if program != [] {
      var e := program[0].enter(m.objects, m.nextId, m.st);
      var entered := EnterMachine(m, e);
      assert entered.st == e.st && entered.q.inFds == m.q.inFds && entered.recvs == m.recvs;
      if e.Entered? {
        RunKeepsFds(program[0].done, entered);
      }
      assert forall i: nat | i < |program| - 1 :: program[1..][i] == program[i + 1];
      PhasesKeepFds(program[1..], RunPhase(CopyDispatcher(), program[0], m).1);
    }
  }

  /** In every copy run, whatever its end: the descriptors received are, in order, those handed to serve_send, each
      once, followed by those still queued, which the closing of the connection closes; and none is queued to go out. */
  lemma {:induction false} CopyFdsAccounted(selector: Name, sel: Selection, bytes: seq<Byte>, mimes: seq<Name>,
                                            oneshot: bool, sends: seq<SendAnswer>, recvs: seq<RecvAnswer>)
    requires forall fd | fd in ChunkFds(recvs) :: fd >= 0
    ensures var r := RunPhases(CopyDispatcher(), CopyProgram(selector, sel),
                               NewMachine(NewCopy(bytes, mimes, oneshot), sends, recvs)).1;
            r.st.ext.answered + r.q.inFds + ChunkFds(r.recvs) == ChunkFds(recvs) && r.q.outFds == []
  {
    hide RunPhases, ChunkFds, NameMatches, PickSeat, Silent, Light;
    var m, program := NewMachine(NewCopy(bytes, mimes, oneshot), sends, recvs), CopyProgram(selector, sel);
    assert [] + [] + ChunkFds(recvs) == ChunkFds(recvs);
    forall i: nat, objects: Table, nextId: U32, st: CopySession | i < |program|
      ensures var e := program[i].enter(objects, nextId, st);
              e.st.ext.answered == st.ext.answered && (e.Entered? ==> e.fds == [])
    {
    }
    PhasesKeepFds(program, m);
    CopyIsLight(selector, sel);
    PhasesQueueNoFds(CopyDispatcher(), program, m);
  }
}
