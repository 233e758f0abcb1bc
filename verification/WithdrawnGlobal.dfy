/** A paste that binds a global it has been told is gone. */
module WithdrawnGlobal {
  import opened Bytes
  import opened Wire
  import opened Connections
  import opened Dispatching
  import opened Clients
  import opened Phases
  import opened Completion
  import opened Mime
  import opened Handcrafted
  import opened Compositor
  import opened Conformance
  import opened ConformantRuns
  import opened SyncBarrier
  import opened Greetings
  import KeptWriteEnd

  /** The seat is advertised and withdrawn before the first sync is answered. */
  function Withdrawal(): seq<Packet> {
    [GlobalEvent(Global(1, 1), IF_SEAT), GlobalEvent(Global(2, 2), IF_MANAGER),
     WordEvent(REGISTRY, 1, 1),
     DoneEvent(FIRST_SYNC)]
  }

  lemma {:induction false} WithdrawalFits()
    ensures forall p | p in Withdrawal() :: Fits(p.msg) && p.fd.None?
    ensures 1 <= |EncodePackets(Withdrawal())| <= PUMP_SIZE && |Withdrawal()| == 4
  {
    hide AdvertOf, EncodeArgs, EncodeMessage, Ascii, Le32;
    var ps := Withdrawal();
    assert |IF_SEAT| == 7 && |IF_MANAGER| == 28;
    GlobalAdvertised(Global(1, 1), IF_SEAT);
    GlobalAdvertised(Global(2, 2), IF_MANAGER);
    EncodedLength(ps[0].msg);
    EncodedLength(ps[1].msg);
    EncodedLength(ps[2].msg);
    EncodedLength(ps[3].msg);
    assert ps[1..] == [ps[1], ps[2], ps[3]] && ps[1..][1..] == [ps[2], ps[3]] && ps[1..][1..][1..] == [ps[3]];
    assert [ps[3]][1..] == [];
  }

  lemma {:induction false} WithdrawalBarrier()
    ensures var b := BarriersOf(Withdrawal()); b.reached1 && b.first == Withdrawal()[..3]
  {
    hide EncodeArgs, Ascii, Le32;
    var ps := Withdrawal();
    assert ps[1..] == [ps[1], ps[2], ps[3]] && ps[1..][1..] == [ps[2], ps[3]] && ps[1..][1..][1..] == [ps[3]];
    assert FirstDone(ps[1..][1..][1..], FIRST_SYNC) == 0;
    assert FirstDone(ps[1..][1..], FIRST_SYNC) == 1;
    assert FirstDone(ps[1..], FIRST_SYNC) == 2;
    assert FirstDone(ps, FIRST_SYNC) == 3;
  }

  lemma {:induction false} WithdrawalGlobals()
    ensures GlobalsIn(Withdrawal()[..3], REGISTRY, IF_SEAT) == [Global(1, 1)]
    ensures GlobalsIn(Withdrawal()[..3], REGISTRY, IF_MANAGER) == [Global(2, 2)]
    ensures Spared(Withdrawal()[..3], {REGISTRY, FIRST_SYNC})
  {
    hide AdvertOf, EncodeArgs, Ascii, Le32, Word;
    var ps := Withdrawal();
    var first := ps[..3];
    assert |IF_SEAT| == 7 && |IF_MANAGER| == 28;
    GlobalAdvertised(Global(1, 1), IF_SEAT);
    GlobalAdvertised(Global(2, 2), IF_MANAGER);
    assert first == [ps[0], ps[1]] + [ps[2]];
    TwoGlobals(ps[0], ps[1], IF_SEAT);
    TwoGlobals(ps[0], ps[1], IF_MANAGER);
    GlobalsSnoc(ps[0], ps[1], ps[2], IF_SEAT);
    GlobalsSnoc(ps[0], ps[1], ps[2], IF_MANAGER);
  }

  lemma {:induction false} GlobalsSnoc(p: Packet, q: Packet, r: Packet, interface: Name)
    requires r.msg.opcode != 0
    ensures GlobalsIn([p, q] + [r], REGISTRY, interface) == GlobalsIn([p, q], REGISTRY, interface)
  {
    hide AdvertOf;
    var all, two := [p, q] + [r], [p, q];
    assert all[1..] == [q, r] && [q, r][1..] == [r] && [r][1..] == [] && two[1..] == [q] && [q][1..] == [];
    assert GlobalsIn([r], REGISTRY, interface) == [] + GlobalsIn([], REGISTRY, interface) == [];
  }

  /** What the compositor makes of the registry phase. */
  lemma {:induction false} WithdrawalJudged()
    ensures var log := QueuedItems([GetRegistry(REGISTRY), Sync(FIRST_SYNC)]) + EventItems(Withdrawal());
            var v := Judge(Fair(NEW_PEER), log);
            v.Fair? && 1 in v.peer.withdrawn
  {
    hide AdvertOf, EncodeArgs, Ascii, Le32, Word, Judge, JudgeItem, Withdrawal;
    var reqs := [GetRegistry(REGISTRY), Sync(FIRST_SYNC)];
    var p1 := Created(NEW_PEER, SRegistry);
    var p2 := Created(p1, SCallback);
    GetRegistryJudged(NEW_PEER);
    SyncJudged(p1);
    assert reqs[1..] == [Sync(FIRST_SYNC)] && reqs[1..][1..] == [];
    JudgeQueued(Fair(NEW_PEER), reqs);
    JudgeQueued(Fair(p1), reqs[1..]);
    JudgeNothing(Fair(p2));
    JudgeConcat(Fair(NEW_PEER), QueuedItems(reqs), EventItems(Withdrawal()));
    EventsWithdraw(p2);
  }

  lemma {:induction false} EventsWithdraw(p: Peer)
    requires Is(p, REGISTRY, SRegistry) && Is(p, FIRST_SYNC, SCallback) && p.offers == map[]
    ensures var v := Judge(Fair(p), EventItems(Withdrawal())); v.Fair? && 1 in v.peer.withdrawn
  {
    hide AdvertOf, EncodeArgs, Ascii, Le32, Word, Text, Judge;
    var ps := Withdrawal();
    var items := EventItems(ps);
    assert |IF_SEAT| == 7 && |IF_MANAGER| == 28;
    GlobalAdvertised(Global(1, 1), IF_SEAT);
    GlobalAdvertised(Global(2, 2), IF_MANAGER);
    WordIsRead(REGISTRY, 1, 1);
    assert items == [items[0]] + ([items[1]] + ([items[2]] + [items[3]]));
    JudgeConcat(Fair(p), [items[0]], [items[1]] + ([items[2]] + [items[3]]));
    JudgeOne(Fair(p), items[0]);
    var p1 := JudgeItem(Fair(p), items[0]).peer;
    JudgeConcat(Fair(p1), [items[1]], [items[2]] + [items[3]]);
    JudgeOne(Fair(p1), items[1]);
    var p2 := JudgeItem(Fair(p1), items[1]).peer;
    JudgeConcat(Fair(p2), [items[2]], [items[3]]);
    JudgeOne(Fair(p2), items[2]);
    var p3 := JudgeItem(Fair(p2), items[2]).peer;
    JudgeOne(Fair(p3), items[3]);
  }

  /** A run in which every paste, whatever it is after, is first to break a judged rule. */
  lemma {:induction false} WithdrawingRunExists(sel: Selection, prefer: Name, listOnly: bool, pipe: Option<int>)
    returns (sends: seq<SendAnswer>, recvs: seq<RecvAnswer>)
    ensures Judge(Fair(NEW_PEER), RunPhases(PasteDispatcher(), PasteProgram([], sel, prefer, listOnly, pipe),
                                            NewMachine(NewPaste(), sends, recvs)).1.log).ClientAtFault?
  {
    hide Faithful, Whole, MatchedPhases, PhasesFlow, FoldPhases, RunPhases, FoldPhase, RunPhase, Withdrawal, Cost,
      Silent, Light, OneByOne, EncodePackets, Judge, BarriersOf, GlobalsIn, Spared, Requests, EnterMachine, Flows;
    var h, first, ps := PasteDispatcher(), Bootstrap<PasteState>([])[0], Withdrawal();
    var objects, st := map[DISPLAY_ID := Display], NewPaste();
    WithdrawalFits();
    OneChunkIsFaithful(ps);
    KeptWriteEnd.PasteMatched([first], objects, CLIENT_ID_MIN, st, ps);
    recvs := [Got(Batch(EncodePackets(ps), []))];
    var cost := Cost(FoldPhases(h, [first], objects, CLIENT_ID_MIN, st, ps).log);
    sends := OneByOne(cost);
    OneByOneWilling(cost);
    var m := NewMachine(st, sends, recvs);
    RegistryIsLight();
    StoryFlows(h, [first], m, ps);
    PhasesComplete(h, [first], m, ps);
    OnePhase(h, first, m);
    OneStory(h, first, objects, CLIENT_ID_MIN, st, ps);
    WithdrawalBarrier();
    WithdrawalGlobals();
    PasteActsCommon();
    FirstWait(h, st.ext, [], ps);
    var (status, b) := RunPhase(h, first, m);
    assert b.log[|m.log|..] == b.log;
    RegistryLog(h, objects, st, ps);
    WithdrawalJudged();
    SeatIsWithdrawn(b, Judge(Fair(NEW_PEER), b.log).peer);
    PasteConformsIff([], sel, prefer, listOnly, pipe, sends, recvs);
  }

  lemma {:induction false} RegistryIsLight()
    ensures Silent(PasteDispatcher()) && Light([Bootstrap<PasteState>([])[0]])
  {
    hide EncodeRequests, Silent;
    KeptWriteEnd.UntilIsLight();
  }

  /** The log of the registry phase: its two requests, then everything read. */
  lemma {:induction false} RegistryLog(h: Handler<PasteSession>, objects: Table, st: PasteSession, ps: seq<Packet>)
    requires Silent(h)
    requires FoldPhase(h, Bootstrap<PasteState>([])[0], objects, CLIENT_ID_MIN, st, ps).rest == []
    ensures FoldPhase(h, Bootstrap<PasteState>([])[0], objects, CLIENT_ID_MIN, st, ps).log
         == QueuedItems([GetRegistry(REGISTRY), Sync(FIRST_SYNC)]) + EventItems(ps)
  {
    hide FoldUntil, Silent;
    var e := EnterRegistry(objects, CLIENT_ID_MIN, st);
    SilentFoldLog(h, SyncDone(), e.objects, e.st, ps);
    assert ps[..|ps|] == ps;
  }

  lemma {:induction false} SeatIsWithdrawn(b: Machine<PasteSession>, p: Peer)
    requires b.st.g.seats == [Global(1, 1)] && b.st.g.managers == [Global(2, 2)] && 1 in p.withdrawn
    ensures EnterBind([], b.objects, b.nextId, b.st).Entered? && BindsWithdrawn([], b.st, p)
  {
    assert Decimal([]) == 0;
  }
}
