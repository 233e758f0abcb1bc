/** A copy run in which everybody keeps the rules for requests, and the client neglects an offer it should destroy. */
module NeglectedOffer {
  import opened Bytes
  import opened Wire
  import opened Connections
  import opened Dispatching
  import opened Clients
  import opened Phases
  import opened Completion
  import opened Mime
  import opened Handcrafted
  import opened Compositor
  import opened Conformance
  import opened ConformantRuns
  import opened SyncBarrier
  import opened CopyRuns
  import opened Greetings
  import opened BlamedCopy

  /** The id a copy gives its device. */
  const COPY_DEVICE: U32 := 8

  const OFFER: U32 := SERVER_ID_MIN

  /** An earlier selection is shown to the copy's device, and then taken away. */
  function EarlierSelection(): seq<Packet> {
    [WordEvent(COPY_DEVICE, 0, OFFER), WordEvent(COPY_DEVICE, 1, OFFER),
     WordEvent(COPY_DEVICE, 1, 0)]
  }

  /** A serving copy ignores what its device is told. */
  lemma {:induction false} DeviceIgnored(objects: Table, st: CopySession, ps: seq<Packet>)
    requires !st.ext.done && forall p | p in ps :: KindIn(objects, p.msg.id) == Device
    ensures FoldUntil(CopyDispatcher(), CopyDone(), objects, st, ps) == Folded(false, objects, st, [], EventItems(ps))
    decreases |ps|
  {
    if ps != [] {
      assert forall p | p in ps[1..] :: p in ps;
      assert ps[0] in ps;
      DeviceIgnored(objects, st, ps[1..]);
      assert EventItems(ps) == [Event(ps[0].msg, FdOf(ps[0]))] + QueuedItems([]) + EventItems(ps[1..]);
    }
  }

  /** The compositor's view of these events: the offer is announced, shown, and superseded. */
  lemma {:induction false} EarlierSelectionJudged(p: Peer)
    requires IsDeviceOf(p) && p.offers == map[]
    ensures var v := Judge(Fair(p), EventItems(EarlierSelection())); v.Fair? && OFFER in v.peer.owed
  {
    hide Word, AdvertOf, Text, JudgeEvent;
    var ps := EarlierSelection();
    var items := EventItems(ps);
    assert items[1..] == [items[1], items[2]] && items[1..][1..] == [items[2]] && items[1..][1..][1..] == [];
    WordIsRead(COPY_DEVICE, 0, OFFER);
    WordIsRead(COPY_DEVICE, 1, OFFER);
    WordIsRead(COPY_DEVICE, 1, 0);
    var p1 := p.(offers := p.offers[OFFER := []]);
    DeviceEventsJudged(p, ps[0].msg, ps[1].msg, ps[2].msg);
    var p2 := Show(p1, COPY_DEVICE, Regular, OFFER);
    assert Judge(Fair(p1), items[1..]) == Judge(Fair(p2), items[1..][1..]);
    assert Judge(Fair(p2), items[1..][1..]) == Judge(Fair(Show(p2, COPY_DEVICE, Regular, 0)), []);
  }

  predicate IsDeviceOf(p: Peer) {
    COPY_DEVICE in p.objs && p.objs[COPY_DEVICE].SDevice?
  }

  lemma {:induction false} DeviceEventsJudged(p: Peer, announce: Message, select: Message, clear: Message)
    requires IsDeviceOf(p) && p.offers == map[]
    requires announce.id == select.id == clear.id == COPY_DEVICE
    requires announce.opcode == 0 && select.opcode == clear.opcode == 1
    requires Word(announce) == Word(select) == OFFER && Word(clear) == 0
    ensures var p1 := p.(offers := p.offers[OFFER := []]);
            var p2 := Show(p1, COPY_DEVICE, Regular, OFFER);
            && JudgeEvent(p, announce) == Fair(p1) && JudgeEvent(p1, select) == Fair(p2)
            && JudgeEvent(p2, clear) == Fair(Show(p2, COPY_DEVICE, Regular, 0))
  {
    hide Word, AdvertOf, Text;
  }

  /** Such runs exist for every copy whose types can be offered. */
  lemma {:induction false} NeglectingRunExists(bytes: seq<Byte>, mimes: seq<Name>, oneshot: bool)
    returns (sends: seq<SendAnswer>, recvs: seq<RecvAnswer>)
    requires mimes != [] && Sendable(mimes)
    ensures var v := Judge(Fair(NEW_PEER), RunPhases(CopyDispatcher(), CopyProgram([], Regular),
                                                     NewMachine(NewCopy(bytes, mimes, oneshot), sends, recvs)).1.log);
            v.Fair? && OFFER in v.peer.owed
  {
    hide Faithful, MatchedPhases, Judge, Sendable, RunPhases, FoldPhases, FoldPhase, Welcome, Reaches, EncodePackets,
      Whole, Cost, Willing, Silent, Light, PhasesFlow, Greeting, EarlierSelection, Plain, Honest, BootSpared,
      BarriersOf;
    var st := NewCopy(bytes, mimes, oneshot);
    var h, program, rest := CopyDispatcher(), CopyProgram([], Regular), EarlierSelection();
    var ps := Welcome() + rest;
    EarlierSelectionFits();
    WelcomeReaches(Regular, rest);
    GreetingIsFaithful(rest);
    CopyMatched([], Regular, st, ps) by { WelcomeIsPlain(rest); }
    recvs := Greeting(rest);
    var objects := map[DISPLAY_ID := Display];
    var cost := Cost(FoldPhases(h, program, objects, CLIENT_ID_MIN, st, ps).log);
    sends := OneByOne(cost);
    OneByOneWilling(cost);
    var m := NewMachine(st, sends, recvs);
    CopyIsLight([], Regular);
    StoryFlows(h, program, m, ps);
    PhasesComplete(h, program, m, ps);
    var r := RunPhases(h, program, m).1;
    assert r.log[|m.log|..] == r.log;
    WelcomeIsHonest(rest);
    BootStoryConforms(m, ps);
    NeglectingStory(bytes, mimes, oneshot);
  }

  lemma {:induction false} EarlierSelectionFits()
    ensures var rest := EarlierSelection();
            && (forall p | p in rest :: Fits(p.msg) && p.fd.None?)
            && |EncodePackets(rest)| <= 3000 && Plain(rest) && Honest(rest)
  {
    hide EncodeMessage, AdvertOf, Le32;
    var ps := EarlierSelection();
    EncodedLength(ps[0].msg);
    EncodedLength(ps[1].msg);
    EncodedLength(ps[2].msg);
    assert ps[1..] == [ps[1], ps[2]] && ps[1..][1..] == [ps[2]] && ps[1..][1..][1..] == [];
  }

  /** The state bootstrap's story ends in is one client and compositor agree on, since some run reaches it. */
  lemma {:induction false} BootStoryConforms(m: Machine<CopySession>, ps: seq<Packet>)
    requires exists bytes, mimes, oneshot :: m.st == NewCopy(bytes, mimes, oneshot)
    requires m == NewMachine(m.st, m.sends, m.recvs)
    requires Faithful(ps, m.q, m.recvs) && Whole(ps, m.q, m.recvs)
    requires MatchedPhases(CopyDispatcher(), Bootstrap<CopyState>([]), m.objects, m.nextId, m.st, ps)
    requires PhasesFlow(CopyDispatcher(), CopyProgram([], Regular), m) && Honest(ps) && BootSpared(BarriersOf(ps))
    ensures var s := FoldPhases(CopyDispatcher(), Bootstrap<CopyState>([]), m.objects, m.nextId, m.st, ps);
            s.status.Completed? ==>
              s.st.seatId != 0 && s.st.managerId != 0 && Inv(CopyLens(), 7, s.st, s.objects, s.st, s.log)
  {
    hide Faithful, MatchedPhases, Judge, RunPhases, FoldPhases, Whole, PhasesFlow, Bootstrap, Inv, Honest, BarriersOf,
      BootSpared, BoundWithdrawn;
    var h, boot := CopyDispatcher(), Bootstrap<CopyState>([]);
    FlowsConcat(h, boot, [CopyPhase([], Regular)], m);
    PhasesComplete(h, boot, m, ps);
    NothingWithdrawn([], m, ps);
    BootIsNotBlamed([], m);
    var (status, b) := RunPhases(h, boot, m);
    assert b.log[|m.log|..] == b.log;
  }

  lemma {:induction false} NeglectingStory(bytes: seq<Byte>, mimes: seq<Name>, oneshot: bool)
    requires mimes != [] && Sendable(mimes)
    requires var s := FoldPhases(CopyDispatcher(), Bootstrap<CopyState>([]), map[DISPLAY_ID := Display], CLIENT_ID_MIN,
                                 NewCopy(bytes, mimes, oneshot), Welcome() + EarlierSelection());
             s.status.Completed? ==>
               s.st.seatId != 0 && s.st.managerId != 0 && Inv(CopyLens(), 7, s.st, s.objects, s.st, s.log)
    ensures var s := FoldPhases(CopyDispatcher(), CopyProgram([], Regular), map[DISPLAY_ID := Display], CLIENT_ID_MIN,
                                NewCopy(bytes, mimes, oneshot), Welcome() + EarlierSelection());
            var v := Judge(Fair(NEW_PEER), s.log);
            v.Fair? && OFFER in v.peer.owed
  {
    hide Judge, Sendable, FoldPhases, FoldPhase, Welcome, EncodePackets, EarlierSelection, BootSpared, BarriersOf,
      PickSeat, GlobalsIn, NameIn, Requests, BootRequests, HonestLog, Inv, Bootstrap, PlainPeer, Honest;
    var st, ps := NewCopy(bytes, mimes, oneshot), Welcome() + EarlierSelection();
    var h, boot, p := CopyDispatcher(), Bootstrap<CopyState>([]), CopyPhase([], Regular);
    var objects := map[DISPLAY_ID := Display];
    WelcomeReaches(Regular, EarlierSelection());
    EarlierSelectionFits();
    WelcomeIsHonest(EarlierSelection());
    CopyActsCommon();
    BootstrapStory(h, st.ext, [], ps);
    StoriesConcat(h, boot, [p], objects, CLIENT_ID_MIN, st, ps);
    var s := FoldPhases(h, boot, objects, CLIENT_ID_MIN, st, ps);
    OneStory(h, p, s.objects, s.nextId, s.st, s.rest);
    StoryIsHonest(h, boot, objects, CLIENT_ID_MIN, st, ps);
    BootIsFair(s.log, [], GlobalsIn(BarriersOf(ps).first, REGISTRY, IF_SEAT),
               GlobalsIn(BarriersOf(ps).first, REGISTRY, IF_MANAGER));
    InvIsNoBlame(s.objects, s.st, s.log);
    ServingNeglects(s.objects, s.st, s.log);
  }

  lemma {:induction false} InvIsNoBlame(objects: Table, st: CopySession, log: seq<LogItem>)
    requires Inv(CopyLens(), 7, st, objects, st, log)
    ensures !Judge(Fair(NEW_PEER), log).ClientAtFault?
  {
    hide Judge, Agree;
  }

  /** From the end of bootstrap on. */
  lemma {:induction false} ServingNeglects(objects: Table, st: CopySession, log: seq<LogItem>)
    requires Inv(CopyLens(), 7, st, objects, st, log) && st.seatId != 0 && st.managerId != 0
    requires !st.ext.done && st.ext.mimes != [] && Sendable(st.ext.mimes)
    requires var v := Judge(Fair(NEW_PEER), log); v.Fair? && PlainPeer(v.peer)
    ensures var t := FoldPhase(CopyDispatcher(), CopyPhase([], Regular), objects, 7, st, EarlierSelection());
            var v := Judge(Fair(NEW_PEER), log + t.log);
            v.Fair? && OFFER in v.peer.owed
  {
    hide Judge, Sendable, Agree, EarlierSelection, Inv, FoldUntil;
    InvParts(CopyLens(), 7, st, objects, st, log);
    var v := Judge(Fair(NEW_PEER), log);
    var e := EnterCopy([], Regular, objects, 7, st);
    var p2 := CopyEntryJudged([], Regular, objects, 7, st, v.peer);
    DeviceIsTold();
    DeviceIgnored(e.objects, e.st, EarlierSelection());
    var items := EventItems(EarlierSelection());
    JudgeConcat(Fair(NEW_PEER), log, QueuedItems(e.reqs) + items);
    JudgeConcat(v, QueuedItems(e.reqs), items);
    EarlierSelectionJudged(Takes(p2, COPY_DEVICE, Regular, 7));
  }

  lemma {:induction false} DeviceIsTold()
    ensures forall p | p in EarlierSelection() :: p.msg.id == COPY_DEVICE
  {
    hide Le32;
  }
}
