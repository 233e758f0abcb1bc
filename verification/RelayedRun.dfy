/** A relayed copy and paste that happens: one type, one request, both connections in one chunk. */
module RelayedRun {
  import opened Bytes
  import opened Wire
  import opened Connections
  import opened Dispatching
  import opened Transport
  import opened Clients
  import opened Phases
  import opened Completion
  import opened Mime
  import opened Handcrafted
  import opened SyncBarrier
  import CopyRuns
  import opened PasteRuns
  import opened Greetings
  import BlamedCopy
  import opened KeptWriteEnd
  import opened Relay

  // ---- More messages after those a program needs --------------------------

  lemma {:induction false} StoppedExtends<S>(h: Handler<S>, done: S -> bool, objects: Table, st: S, a: seq<Packet>,
                                             b: seq<Packet>)
    requires FoldUntil(h, done, objects, st, a).stopped
    ensures var f := FoldUntil(h, done, objects, st, a);
            FoldUntil(h, done, objects, st, a + b) == f.(rest := f.rest + b)
    ensures Matched(h, done, objects, st, a) ==> Matched(h, done, objects, st, a + b)
    decreases |a|
  {
    if !done(st) {
      var e := h.handle(objects, st, a[0].msg, FdOf(a[0]));
      assert (a + b)[0] == a[0] && (a + b)[1..] == a[1..] + b;
      StoppedExtends(h, done, e.objects, e.st, a[1..], b);
    }
  }

  lemma {:induction false} StoryExtends<S>(h: Handler<S>, program: seq<Phase<S>>, objects: Table, nextId: U32, st: S,
                                           a: seq<Packet>, b: seq<Packet>)
    requires FoldPhases(h, program, objects, nextId, st, a).status.Completed?
    requires MatchedPhases(h, program, objects, nextId, st, a)
    ensures var s := FoldPhases(h, program, objects, nextId, st, a);
            FoldPhases(h, program, objects, nextId, st, a + b) == s.(rest := s.rest + b)
    ensures MatchedPhases(h, program, objects, nextId, st, a + b)
    decreases |program|
  {
    hide FoldUntil, Matched;
    if program != [] {
      var e := program[0].enter(objects, nextId, st);
      StoppedExtends(h, program[0].done, e.objects, e.st, a, b);
      var s := FoldPhase(h, program[0], objects, nextId, st, a);
      StoryExtends(h, program[1..], s.objects, s.nextId, s.st, s.rest, b);
    }
  }

  lemma {:induction false} MatchedConcat<S>(h: Handler<S>, a: seq<Phase<S>>, b: seq<Phase<S>>, objects: Table,
                                            nextId: U32, st: S, ps: seq<Packet>)
    requires MatchedPhases(h, a, objects, nextId, st, ps)
    requires var s := FoldPhases(h, a, objects, nextId, st, ps);
             s.status.Completed? ==> MatchedPhases(h, b, s.objects, s.nextId, s.st, s.rest)
    ensures MatchedPhases(h, a + b, objects, nextId, st, ps)
    decreases |a|
  {
    hide FoldUntil, Matched;
    if a == [] {
      assert a + b == b;
    } else {
      assert (a + b)[0] == a[0] && (a + b)[1..] == a[1..] + b;
      var s := FoldPhase(h, a[0], objects, nextId, st, ps);
      if s.status.Completed? {
        MatchedConcat(h, a[1..], b, s.objects, s.nextId, s.st, s.rest);
      }
    }
  }

  // ---- The copying client -------------------------------------------------

  /** The welcome, then the request for the type, with its descriptor. */
  function CopyStream(mime: Name, fd: int): seq<Packet> {
    Welcome() + SendEvents([mime], fd)
  }

  lemma {:induction false} SendFits(mime: Name, fd: int)
    requires |mime| <= 1000
    ensures var rest := SendEvents([mime], fd);
            && rest == [TextEvent(CopyRuns.SOURCE, 0, mime).(fd := Some(fd))]
            && Fits(rest[0].msg) && |EncodePackets(rest)| <= 3000 && PacketFds(rest) == [fd]
  {
    hide EncodeMessage, EncodeArgs, Text, Fits;
    var ps := SendEvents([mime], fd);
    assert [mime][1..] == [] && SendEvents([], fd) == [];
    TextIsRead(CopyRuns.SOURCE, 0, mime);
    EncodedLength(ps[0].msg);
    assert ps[1..] == [];
    assert EncodePackets(ps) == EncodeMessage(ps[0].msg) + EncodePackets(ps[1..]);
    assert PacketFds(ps) == [fd] + PacketFds(ps[1..]);
  }

  lemma {:induction false} FdsConcat(a: seq<Packet>, b: seq<Packet>)
    ensures PacketFds(a + b) == PacketFds(a) + PacketFds(b)
    decreases |a|
  {
    if a == [] {
      assert a + b == b;
    } else {
      assert (a + b)[1..] == a[1..] + b;
      FdsConcat(a[1..], b);
      Assoc(if a[0].fd.Some? then [a[0].fd.value] else [], PacketFds(a[1..]), PacketFds(b));
    }
  }

  /** All of it in one chunk, with the descriptor. */
  function CopyChunk(mime: Name, fd: int): seq<RecvAnswer>
    requires 1 <= |EncodePackets(CopyStream(mime, fd))| <= PUMP_SIZE
  {
    [Got(Batch(EncodePackets(CopyStream(mime, fd)), [fd]))]
  }

  lemma {:induction false} CopyChunkIsFaithful(mime: Name, fd: int)
    requires |mime| <= 1000
    ensures 1 <= |EncodePackets(CopyStream(mime, fd))| <= PUMP_SIZE
    ensures Faithful(CopyStream(mime, fd), Queues([], [], [], []), CopyChunk(mime, fd))
    ensures Whole(CopyStream(mime, fd), Queues([], [], [], []), CopyChunk(mime, fd))
  {
    hide EncodePackets, Welcome, Fits, InTime, PacketFds, SendEvents;
    var ps := CopyStream(mime, fd);
    WelcomeFits();
    SendFits(mime, fd);
    EncodePacketsConcat(Welcome(), SendEvents([mime], fd));
    FdsConcat(Welcome(), SendEvents([mime], fd));
    NoFds(Welcome());
    assert PacketFds(ps) == [] + [fd];
    var c: Chunk := Batch(EncodePackets(ps), [fd]);
    var none: seq<Batch> := [];
    var recvs := [Got(c)];
    assert recvs[1..] == [] && Incoming(recvs) == [c] + none;
    BatchesCons(c, none);
    assert BatchBytes(none) == [] && BatchFds(none) == [];
    NothingYetIsInTime(ps);
    AllFdsAreInTime(ps, |c.bytes|, 1, none);
    var chunks := Incoming(recvs);
    assert chunks[0] == c && chunks[1..] == none;
    InTimeIntro(ps, chunks);
    assert [] + EncodePackets(ps) == EncodePackets(ps) && EncodePackets(ps) + [] == EncodePackets(ps);
  }

  lemma {:induction false} CopyStreamMatched(payload: seq<Byte>, mime: Name, oneshot: bool, fd: int)
    ensures MatchedPhases(CopyDispatcher(), CopyProgram([], Regular), map[DISPLAY_ID := Display], CLIENT_ID_MIN,
                          NewCopy(payload, [mime], oneshot), CopyStream(mime, fd))
  {
    hide MatchedPhases, FoldPhases, Bootstrap, Welcome, BarriersOf, GlobalsIn, NameIn, Reaches, BootSpared,
      BlamedCopy.Plain, SendEvents, PickSeat, BootRequests, Requests;
    var h, boot, p := CopyDispatcher(), Bootstrap<CopyState>([]), CopyPhase([], Regular);
    var objects, st := map[DISPLAY_ID := Display], NewCopy(payload, [mime], oneshot);
    var none: seq<Packet> := [];
    assert Welcome() + none == Welcome();
    BlamedCopy.CopyMatched([], Regular, st, Welcome()) by { BlamedCopy.WelcomeIsPlain(none) by { NothingIsPlain(); } }
    WelcomeReaches(Regular, none);
    CopyActsCommon();
    BootstrapStory(h, st.ext, [], Welcome()) by { SpareWelcome(); }
    assert FoldPhases(h, boot, objects, CLIENT_ID_MIN, st, Welcome()).status.Completed? by { ReachIsBoot(Welcome()); }
    StoryExtends(h, boot, objects, CLIENT_ID_MIN, st, Welcome(), SendEvents([mime], fd));
    var s := FoldPhases(h, boot, objects, CLIENT_ID_MIN, st, CopyStream(mime, fd));
    assert s.rest == SendEvents([mime], fd);
    SendMatched(s.objects, s.st, mime, fd);
    MatchedConcat(h, boot, [p], objects, CLIENT_ID_MIN, st, CopyStream(mime, fd));
  }

  lemma {:induction false} NothingIsPlain()
    ensures BlamedCopy.Plain([])
  {
  }

  lemma {:induction false} SpareWelcome()
    ensures BootSpared(BarriersOf(Welcome()))
  {
    hide BootSpared, BarriersOf, Welcome, Reaches;
    var none: seq<Packet> := [];
    assert Welcome() + none == Welcome();
    WelcomeReaches(Regular, none);
  }

  lemma {:induction false} ReachIsBoot(ps: seq<Packet>)
    requires Reaches([], Regular, ps)
    ensures var b := BarriersOf(ps);
            && b.reached1 && b.reached2 && GlobalsIn(b.first, REGISTRY, IF_MANAGER) != []
            && PickSeat([], |GlobalsIn(b.first, REGISTRY, IF_SEAT)|).Some?
  {
    hide BarriersOf, GlobalsIn, PickSeat, NameIn;
  }

  lemma {:induction false} SendMatched(objects: Table, st: CopySession, mime: Name, fd: int)
    ensures MatchedPhases(CopyDispatcher(), [CopyPhase([], Regular)], objects, 7, st, SendEvents([mime], fd))
  {
    hide FoldUntil, EncodeArgs, OnSource;
    var ps := SendEvents([mime], fd);
    assert [mime][1..] == [] && SendEvents([], fd) == [];
    assert ps == [ps[0]] && ps[1..] == [];
    var e := EnterCopy([], Regular, objects, 7, st);
    BlamedCopy.MatchedLast(CopyDispatcher(), CopyPhase([], Regular), objects, 7, st, ps);
  }

  /** The copying client's connection: the kernel takes its bytes one by one. */
  lemma {:induction false} CopyLinkExists(payload: seq<Byte>, mime: Name, oneshot: bool, fd: int) returns (c: Link)
    requires 1 <= |mime| <= 1000
    ensures Copies([], Regular, payload, [mime], oneshot, c)
    ensures BarriersOf(c.ps).rest == SendEvents([mime], fd)
  {
    hide Faithful, Whole, MatchedPhases, PhasesFlow, FoldPhases, Welcome, Reaches, BootSpared, BarriersOf, Cost,
      Silent, Light, OneByOne, SendEvents, EncodePackets;
    var h, program, ps := CopyDispatcher(), CopyProgram([], Regular), CopyStream(mime, fd);
    var st := NewCopy(payload, [mime], oneshot);
    CopyChunkIsFaithful(mime, fd);
    CopyStreamMatched(payload, mime, oneshot, fd);
    WelcomeReaches(Regular, SendEvents([mime], fd));
    var cost := Cost(FoldPhases(h, program, map[DISPLAY_ID := Display], CLIENT_ID_MIN, st, ps).log);
    OneByOneWilling(cost);
    CopyRuns.CopyIsLight([], Regular);
    c := Link(OneByOne(cost), CopyChunk(mime, fd), ps);
    StoryFlows(h, program, CopyStart(payload, [mime], oneshot, c), ps);
  }

  // ---- The pasting client -------------------------------------------------

  lemma {:induction false} OneOfferIsAnnounced(mime: Name)
    ensures Announcement(Regular, OFFER, [mime]) == OneOffer(mime)
  {
    hide EncodeArgs, Le32;
    assert [mime][1..] == [] && MimeEvents(OFFER, []) == [];
    assert MimeEvents(OFFER, [mime]) == [TextEvent(OFFER, 0, mime)];
  }

  /** A program whose whole story is paid for has sent everything after its last, eager phase. */
  lemma {:induction false} EagerEmpties(prefer: Name, w: int, b: Machine<PasteSession>)
    requires b.q.outFds == []
    requires EnterReceive(Regular, prefer, false, Some(w), b.objects, b.nextId, b.st).Entered?
    requires var e := EnterReceive(Regular, prefer, false, Some(w), b.objects, b.nextId, b.st);
             Budget(b) >= Cost(QueuedItems(e.reqs))
    ensures RunPhase(PasteDispatcher(), ReceivePhase(Regular, prefer, false, Some(w)), b).1.q.outBuf == []
  {
    hide FlushRun, FindOffer, ChooseMime, EncodeRequests, Willing, Requests;
    var e := EnterReceive(Regular, prefer, false, Some(w), b.objects, b.nextId, b.st);
    CostOfQueued(e.reqs);
    EncodeOneRequest(e.reqs[0]);
    EncodedLength(MessageOf(e.reqs[0]));
    var queued := Posted(b.(objects := e.objects, nextId := e.nextId, st := e.st), e.reqs, e.fds);
    FlushKeepsBudget(queued);
    FlushEmpties(queued);
  }

  lemma {:induction false} PasteLinkExists(mime: Name, prefer: Name, w: int) returns (p: Link)
    requires 1 <= |mime| <= 1000
    ensures Pastes([], Regular, prefer, w, [Regular], OFFER, [mime], p)
    ensures RunPhases(PasteDispatcher(), PasteProgram([], Regular, prefer, false, Some(w)), PasteStart(p)).1.q.outBuf
            == []
  {
    hide Faithful, Whole, MatchedPhases, PhasesFlow, FoldPhases, RunPhases, Welcome, Reaches, BootSpared, BarriersOf,
      Cost, Silent, Light, OneByOne, OneOffer, EncodePackets, Announcement, Told, UntilSelection, PasteProgram, Budget,
      Greeting, EnterReceive, RunPhase, FoldPhase;
    var h, program := PasteDispatcher(), PasteProgram([], Regular, prefer, false, Some(w));
    var rest := OneOffer(mime);
    var ps := Welcome() + rest;
    OneOfferIsAnnounced(mime);
    ToldOfOne(Regular, OFFER, [mime]);
    OneOfferFits(mime);
    WelcomeReaches(Regular, rest);
    GreetingIsFaithful(rest);
    PasteMatched(program, map[DISPLAY_ID := Display], CLIENT_ID_MIN, NewPaste(), ps);
    var cost := Cost(FoldPhases(h, program, map[DISPLAY_ID := Display], CLIENT_ID_MIN, NewPaste(), ps).log);
    OneByOneWilling(cost);
    PasteIsLight([], Regular, prefer, false, Some(w));
    p := Link(OneByOne(cost), Greeting(rest), ps);
    var m := PasteStart(p);
    assert Budget(m) >= cost by { StartBudget(p, cost); }
    StoryFlows(h, program, m, ps);
    PasteIsPaid(mime, prefer, w, p, cost);
  }

  lemma {:induction false} StartBudget(p: Link, n: nat)
    requires Willing(p.sends) == n
    ensures Budget(PasteStart(p)) == n
  {
  }

  lemma {:induction false} PasteIsPaid(mime: Name, prefer: Name, w: int, p: Link, cost: nat)
    requires 1 <= |mime| <= 1000 && Pastes([], Regular, prefer, w, [Regular], OFFER, [mime], p)
    requires Budget(PasteStart(p)) >= cost
    requires cost == Cost(FoldPhases(PasteDispatcher(), PasteProgram([], Regular, prefer, false, Some(w)),
                                     map[DISPLAY_ID := Display], CLIENT_ID_MIN, NewPaste(), p.ps).log)
    ensures RunPhases(PasteDispatcher(), PasteProgram([], Regular, prefer, false, Some(w)), PasteStart(p)).1.q.outBuf
            == []
  {
    hide Faithful, Whole, MatchedPhases, PhasesFlow, FoldPhases, RunPhases, Reaches, BootSpared, BarriersOf, Cost,
      Silent, Light, OneByOne, Told, UntilSelection, Budget, EnterReceive, RunPhase, FoldPhase, Choosable,
      ChooseMime, Requests, BootRequests, PasteRequests, Accounted, PickSeat, GlobalsIn, NameIn, Bootstrap, PastePhase;
    var h, until, q := PasteDispatcher(), UntilSelection([], Regular), ReceivePhase(Regular, prefer, false, Some(w));
    var program, m := PasteProgram([], Regular, prefer, false, Some(w)), PasteStart(p);
    assert program == until + [q] by { ProgramIsUntil(prefer, w); }
    assert Choosable([mime]) by { OneIsChoosable(mime); }
    PasteSays([], Regular, prefer, w, OFFER, [mime], p);
    PhasesComplete(h, program, m, p.ps);
    PhasesConcat(h, until, [q], m);
    var b := RunPhases(h, until, m).1;
    OnePhase(h, q, b);
    var r := RunPhases(h, program, m).1;
    assert r.log[|m.log|..] == r.log;
    UntilIsLight();
    CostGrows(h, q, b);
    NothingCosts();
    var e := EnterReceive(Regular, prefer, false, Some(w), b.objects, b.nextId, b.st);
    assert q.enter(b.objects, b.nextId, b.st) == e;
    if e.Refused? {
      RefusedIsRejected(h, q, b);
    }
    WillingFlows(h, until, m);
    EagerEmpties(prefer, w, b);
  }

  lemma {:induction false} ProgramIsUntil(prefer: Name, w: int)
    ensures PasteProgram([], Regular, prefer, false, Some(w))
         == UntilSelection([], Regular) + [ReceivePhase(Regular, prefer, false, Some(w))]
  {
    hide Bootstrap, PastePhase, ReceivePhase;
  }

  lemma {:induction false} NothingCosts()
    ensures Cost([]) == 0
  {
  }

  lemma {:induction false} OneIsChoosable(mime: Name)
    requires 1 <= |mime| <= 1000
    ensures Choosable([mime])
  {
  }

  // ---- Both ---------------------------------------------------------------

  /** Every single type of ordinary length can be copied and pasted this way: two connections as CopyThenPasteRelayed
      wants them. */
  lemma {:induction false} RelayedRunExists(payload: seq<Byte>, mime: Name, prefer: Name, oneshot: bool, w: int,
                                            fd: int)
    returns (c: Link, p: Link)
    requires 1 <= |mime| <= 1000 && fd >= 0
    ensures Copies([], Regular, payload, [mime], oneshot, c)
    ensures var copied := RunPhases(CopyDispatcher(), CopyProgram([], Regular),
                                    CopyStart(payload, [mime], oneshot, c)).1;
            var said := ParseAll(BatchBytes(copied.shipped)).0;
            Pastes([], Regular, prefer, w, TakenIn(said), OFFER, OfferedIn(said), p)
    ensures var pasted := RunPhases(PasteDispatcher(), PasteProgram([], Regular, prefer, false, Some(w)),
                                    PasteStart(p)).1;
            && pasted.q.outBuf == []
            && BarriersOf(c.ps).rest == SendEvents(AskedIn(ParseAll(BatchBytes(pasted.shipped)).0, OFFER), fd)
  {
    hide Copies, Pastes, TakenIn, RunPhases, ParseAll, BatchBytes, BarriersOf, SendEvents, ChooseMime, Choosable;
    OneIsChoosable(mime);
    c := CopyLinkExists(payload, mime, oneshot, fd);
    p := PasteLinkExists(mime, prefer, w);
    CopyIsRead([], Regular, payload, [mime], oneshot, c);
    PasteIsRead([], Regular, prefer, w, OFFER, [mime], p);
    ChoosableIsObtained([mime], prefer, w);
    assert ChooseMime([mime], prefer) == mime;
  }
}
