/** A paste run that keeps its pipe's write end and drains all the same. */
module KeptWriteEnd {
  import opened Bytes
  import opened Wire
  import opened Connections
  import opened Dispatching
  import opened Clients
  import opened Phases
  import opened Completion
  import opened Mime
  import opened Handcrafted
  import opened Compositor
  import opened SyncBarrier
  import opened PasteRuns
  import opened Greetings

  // ---- A kernel that takes byte by byte -----------------------------------

  /** Of n sends of one byte each, as many are left as bytes have not gone out. */
  ghost predicate Metered<S>(m: Machine<S>, n: nat) {
    |BatchBytes(m.shipped)| <= n && m.sends == OneByOne(n - |BatchBytes(m.shipped)|)
  }

  lemma {:induction false} FlushIsMetered(outBuf: seq<Byte>, outFds: seq<int>, n: nat)
    ensures var f := FlushRun(outBuf, outFds, OneByOne(n));
            |BatchBytes(f.batches)| <= n && f.sends == OneByOne(n - |BatchBytes(f.batches)|)
    decreases n
  {
    if outBuf != [] && n > 0 {
      assert OneByOne(n)[1..] == OneByOne(n - 1);
      var b := NextBatch(outBuf, outFds, 1);
      FlushIsMetered(outBuf[1..], outFds[|b.fds|..], n - 1);
      BatchesCons(b, FlushRun(outBuf[1..], outFds[|b.fds|..], OneByOne(n - 1)).batches);
    }
  }

  lemma {:induction false} MachineIsMetered<S>(m: Machine<S>, n: nat)
    requires Metered(m, n)
    ensures Metered(FlushMachine(m).1, n)
  {
    hide FlushRun, OneByOne;
    FlushIsMetered(m.q.outBuf, m.q.outFds, n - |BatchBytes(m.shipped)|);
    BatchesConcat(m.shipped, FlushRun(m.q.outBuf, m.q.outFds, m.sends).batches);
  }

  lemma {:induction false} ProgramIsMetered<S(!new)>(h: Handler<S>, program: seq<Phase<S>>, m: Machine<S>, n: nat)
    requires Silent(h) && Metered(m, n)
    ensures Metered(RunPhases(h, program, m).1, n)
    decreases |program|
  {
    hide FlushRun, OneByOne, Silent, Run, EncodeRequests;
    if program != [] {
      var e := program[0].enter(m.objects, m.nextId, m.st);
      var entered := EnterMachine(m, e);
      if e.Entered? {
        MachineIsMetered(Posted(m.(objects := e.objects, nextId := e.nextId, st := e.st), e.reqs, e.fds), n);
        SilentRun(h, program[0].done, entered);
        MachineIsMetered(entered, n);
      }
      ProgramIsMetered(h, program[1..], RunPhase(h, program[0], m).1, n);
    }
  }

  /** When everything asked for has gone out, and n was its size, no send is left. */
  lemma {:induction false} AllSpent<S>(m: Machine<S>, n: nat)
    requires Metered(m, n) && Accounted(m) && m.q.outBuf == [] && Cost(m.log) == n
    ensures m.sends == []
  {
    hide EncodeRequests, Requests;
    assert BatchBytes(m.shipped) + [] == BatchBytes(m.shipped);
  }

  // ---- The run ------------------------------------------------------------

  const OFFER: U32 := SERVER_ID_MIN

  /** One offer of one type is selected. */
  function OneOffer(mime: Name): seq<Packet> {
    [WordEvent(DEVICE, 0, OFFER), TextEvent(OFFER, 0, mime),
     WordEvent(DEVICE, 1, OFFER)]
  }

  lemma {:induction false} OneOfferEvents(mime: Name)
    requires |mime| <= MAX_TEXT
    ensures EventsOf(OneOffer(mime)) == [OfferMade(OFFER), OfferMime(OFFER, mime), Selected(Regular, OFFER)]
    ensures LawfulTrace(OneOffer(mime))
  {
    hide Word, Text, EncodeArgs, Le32;
    WordIsRead(DEVICE, 0, OFFER);
    TextIsRead(OFFER, 0, mime);
    WordIsRead(DEVICE, 1, OFFER);
  }

  lemma {:induction false} OneOfferFits(mime: Name)
    requires |mime| <= 1000
    ensures var rest := OneOffer(mime);
            (forall p | p in rest :: Fits(p.msg) && p.fd.None?) && |EncodePackets(rest)| <= 3000
  {
    hide EncodeMessage, EncodeArgs, Le32, Word, Text;
    var ps := OneOffer(mime);
    WordIsRead(DEVICE, 0, OFFER);
    TextIsRead(OFFER, 0, mime);
    WordIsRead(DEVICE, 1, OFFER);
    EncodedLength(ps[0].msg);
    EncodedLength(ps[1].msg);
    EncodedLength(ps[2].msg);
    assert ps[1..] == [ps[1], ps[2]] && ps[1..][1..] == [ps[2]] && ps[1..][1..][1..] == [];
    assert EncodePackets(ps[1..][1..]) == EncodeMessage(ps[2].msg) + EncodePackets(ps[1..][1..][1..]);
    assert EncodePackets(ps[1..]) == EncodeMessage(ps[1].msg) + EncodePackets(ps[1..][1..]);
    assert EncodePackets(ps) == EncodeMessage(ps[0].msg) + EncodePackets(ps[1..]);
  }

  lemma {:induction false} OneOfferSelects(mime: Name)
    ensures SelectedTypes(Regular, [OfferMade(OFFER), OfferMime(OFFER, mime), Selected(Regular, OFFER)]) == Some([mime])
  {
    var evs := [OfferMade(OFFER), OfferMime(OFFER, mime), Selected(Regular, OFFER)];
    assert evs[1..] == [evs[1], evs[2]] && evs[1..][1..] == [evs[2]];
    assert FirstTarget(Regular, evs[1..][1..]) == 0;
    assert FirstTarget(Regular, evs[1..]) == 1;
    assert FirstTarget(Regular, evs) == 2;
    var before := evs[..2];
    assert before == [evs[0], evs[1]] && before[1..] == [evs[1]] && [evs[1]][1..] == [];
    assert MimesFor(before[1..], OFFER) == [mime] + MimesFor([], OFFER) == [mime];
  }

  lemma {:induction false} PasteMatched(program: seq<Phase<PasteSession>>, objects: Table, nextId: U32,
                                        st: PasteSession, ps: seq<Packet>)
    requires forall p | p in ps :: p.fd.None?
    ensures MatchedPhases(PasteDispatcher(), program, objects, nextId, st, ps)
    decreases |program|
  {
    hide FoldUntil, Matched;
    if program != [] {
      var e := program[0].enter(objects, nextId, st);
      if e.Entered? {
        WaitMatched(program[0].done, e.objects, e.st, ps);
        var s := FoldPhase(PasteDispatcher(), program[0], objects, nextId, st, ps);
        PasteMatched(program[1..], s.objects, s.nextId, s.st, s.rest);
      }
    }
  }

  lemma {:induction false} WaitMatched(done: PasteSession -> bool, objects: Table, st: PasteSession, ps: seq<Packet>)
    requires forall p | p in ps :: p.fd.None?
    ensures Matched(PasteDispatcher(), done, objects, st, ps)
    ensures forall p | p in FoldUntil(PasteDispatcher(), done, objects, st, ps).rest :: p.fd.None?
    decreases |ps|
  {
    hide PasteHandle;
    if ps != [] && !done(st) {
      var e := PasteHandle(objects, st, ps[0].msg, FdOf(ps[0]));
      assert ps[0] in ps && forall p | p in ps[1..] :: p in ps;
      WaitMatched(done, e.objects, e.st, ps[1..]);
    }
  }

  lemma {:induction false} UntilIsLight()
    ensures Silent(PasteDispatcher()) && Light(UntilSelection([], Regular))
  {
    hide NameMatches, PickSeat, EncodeRequests, Silent;
    PasteIsLight([], Regular, [], true, None);
  }

  lemma {:induction false} OneIsObtainable(mime: Name, prefer: Name, w: int)
    requires mime != []
    ensures Obtainable([mime], prefer, false, Some(w))
  {
    hide ChooseMime;
    ChooseMimeIsStableArgMin([mime], prefer, mime);
  }

  lemma {:induction false} StartsMetered(m: Machine<PasteSession>, n: nat)
    requires m.shipped == [] && m.sends == OneByOne(n)
    ensures Metered(m, n)
  {
  }

  lemma {:induction false} StartsAccounted(m: Machine<PasteSession>)
    requires m.log == [] && m.shipped == [] && m.q.outBuf == []
    ensures Accounted(m)
  {
    assert MessagesOf([]) == [];
  }

  /** If the whole story succeeds, a run that got to the selection asks for the data, whatever the kernel then does. */
  lemma {:induction false} AskingCompletes(prefer: Name, w: int, m: Machine<PasteSession>, ps: seq<Packet>)
    requires var until := UntilSelection([], Regular);
             var (status, b) := RunPhases(PasteDispatcher(), until, m);
             TellsAll(m, status, b, FoldPhases(PasteDispatcher(), until, m.objects, m.nextId, m.st, ps))
    requires FoldPhases(PasteDispatcher(), PasteProgram([], Regular, prefer, false, Some(w)), m.objects, m.nextId,
                        m.st, ps)
               .status.Completed?
    ensures RunPhases(PasteDispatcher(), UntilSelection([], Regular), m).0.Completed?
    ensures RunPhases(PasteDispatcher(), PasteProgram([], Regular, prefer, false, Some(w)), m).0.Completed?
  {
    hide RunPhases, FoldPhases, FoldUntil, Bootstrap, PastePhase, FlushRun, EnterReceive, Faithful, Whole,
      EncodeRequests;
    var h, until, p := PasteDispatcher(), UntilSelection([], Regular), ReceivePhase(Regular, prefer, false, Some(w));
    assert PasteProgram([], Regular, prefer, false, Some(w)) == until + [p];
    StoriesConcat(h, until, [p], m.objects, m.nextId, m.st, ps);
    var s := FoldPhases(h, until, m.objects, m.nextId, m.st, ps);
    OneStory(h, p, s.objects, s.nextId, s.st, s.rest);
    PhasesConcat(h, until, [p], m);
    var b := RunPhases(h, until, m).1;
    OnePhase(h, p, b);
  }

  /** Once the wait for the selection is over, everything asked for has gone out. */
  lemma {:induction false} UntilEmpties(m: Machine<PasteSession>, ps: seq<Packet>)
    requires m == NewMachine(NewPaste(), m.sends, m.recvs)
    requires Faithful(ps, m.q, m.recvs) && Whole(ps, m.q, m.recvs) && BootSpared(BarriersOf(ps))
    requires MatchedPhases(PasteDispatcher(), Bootstrap<PasteState>([]), m.objects, m.nextId, m.st, ps)
    requires PhasesFlow(PasteDispatcher(), UntilSelection([], Regular), m)
    requires RunPhases(PasteDispatcher(), UntilSelection([], Regular), m).0.Completed?
    ensures RunPhases(PasteDispatcher(), UntilSelection([], Regular), m).1.q.outBuf == []
  {
    hide RunPhases, FoldPhases, Bootstrap, FlushRun, Faithful, Whole, EncodeRequests, Silent, Light, PhasesFlow, Run,
      BarriersOf, BootSpared, MatchedPhases, GlobalsIn, NameIn, PickSeat, BootRequests, Requests, NameMatches;
    var h, boot, p := PasteDispatcher(), Bootstrap<PasteState>([]), PastePhase([], Regular);
    FlowsConcat(h, boot, [p], m);
    PhasesComplete(h, boot, m, ps);
    PasteActsCommon();
    BootstrapStory(h, m.st.ext, [], ps);
    PhasesConcat(h, boot, [p], m);
    var b := RunPhases(h, boot, m).1;
    OnePhase(h, p, b);
    UntilIsLight();
    var e := EnterPaste([], Regular, b.objects, b.nextId, b.st);
    var entered := EnterMachine(b, e);
    assert PhasesFlow(h, [p], b);
    OnlyPhaseFlows(h, p, b);
    WaitEmpties(h, p.done, entered);
  }

  lemma {:induction false} OnlyPhaseFlows<S>(h: Handler<S>, p: Phase<S>, m: Machine<S>)
    requires PhasesFlow(h, [p], m) && p.enter(m.objects, m.nextId, m.st).Entered?
    ensures Flows(h, p.done, EnterMachine(m, p.enter(m.objects, m.nextId, m.st)))
  {
    hide Flows, RunPhase;
  }

  /** Such runs exist for every type: the kernel takes exactly what paste sends before its selection comes, and nothing
      after; the paste completes, with the write end still queued. */
  lemma {:induction false} KeepingRunExists(mime: Name, prefer: Name, w: int)
    returns (sends: seq<SendAnswer>, recvs: seq<RecvAnswer>)
    requires 1 <= |mime| <= 1000
    ensures var m := NewMachine(NewPaste(), sends, recvs);
            var b := RunPhases(PasteDispatcher(), UntilSelection([], Regular), m).1;
            var (status, r) := RunPhases(PasteDispatcher(), PasteProgram([], Regular, prefer, false, Some(w)), m);
            status.Completed? && !Ships(b.sends) && r.q.outFds == [w]
  {
    hide Faithful, MatchedPhases, RunPhases, FoldPhases, Welcome, Reaches, EncodePackets, Whole, Cost, Willing, Silent,
      Light, PhasesFlow, Greeting, OneOffer, BootSpared, BarriersOf, LawfulTrace, UntilSelection, PasteProgram,
      EventsOf, OneByOne, Metered, Accounted, SelectedTypes, Obtainable;
    var h, rest := PasteDispatcher(), OneOffer(mime);
    var until, program := UntilSelection([], Regular), PasteProgram([], Regular, prefer, false, Some(w));
    var ps := Welcome() + rest;
    var objects := map[DISPLAY_ID := Display];
    OneOfferFits(mime);
    OneOfferEvents(mime);
    OneOfferSelects(mime);
    WelcomeReaches(Regular, rest);
    GreetingIsFaithful(rest);
    PasteMatched(until, objects, CLIENT_ID_MIN, NewPaste(), ps);
    PasteMatched(Bootstrap<PasteState>([]), objects, CLIENT_ID_MIN, NewPaste(), ps);
    recvs := Greeting(rest);
    var cost := Cost(FoldPhases(h, until, objects, CLIENT_ID_MIN, NewPaste(), ps).log);
    sends := OneByOne(cost);
    OneByOneWilling(cost);
    var m := NewMachine(NewPaste(), sends, recvs);
    UntilIsLight();
    StoryFlows(h, until, m, ps);
    PhasesComplete(h, until, m, ps);
    PasteStory([], Regular, prefer, false, Some(w), ps);
    assert PasteSucceeds([], Regular, prefer, false, Some(w), ps) by { OneIsObtainable(mime, prefer, w); }
    var (before, b) := RunPhases(h, until, m);
    assert b.log[|m.log|..] == b.log;
    AskingCompletes(prefer, w, m, ps);
    assert Metered(m, cost) by { StartsMetered(m, cost); }
    ProgramIsMetered(h, until, m, cost);
    assert Accounted(m) by { StartsAccounted(m); }
    PhasesAccount(h, until, m);
    UntilEmpties(m, ps);
    AllSpent(b, cost);
    WriteEndKeptIff([], Regular, prefer, w, sends, recvs);
  }
}
