/** When a copy is first to break a judged rule, told from the compositor's messages alone, and a run that does. */
module BlamedCopy {
  import opened Bytes
  import opened Wire
  import opened Connections
  import opened Dispatching
  import opened Clients
  import opened Phases
  import opened Completion
  import opened Mime
  import opened Handcrafted
  import opened Compositor
  import opened ConformantRuns
  import opened SyncBarrier
  import opened Greetings

  // ---- A compositor that keeps its promises during bootstrap --------------

  /** No global is advertised at version 0, and none is withdrawn. */
  predicate HonestMessage(m: Message) {
    m.id == REGISTRY ==>
      m.opcode != 1 && (m.opcode == 0 ==> AdvertOf(m).global.version >= 1)
  }

  predicate Honest(ps: seq<Packet>) {
    forall p | p in ps :: HonestMessage(p.msg)
  }

  /** What a client does before it has a device: it asks for one registry, for callbacks, and binds globals. */
  predicate BootRequest(r: Request) {
    || r == GetRegistry(REGISTRY)
    || r == Sync(FIRST_SYNC) || r == Sync(SECOND_SYNC)
    || (r.id == REGISTRY && r.opcode == 0)
  }

  predicate BootItem(item: LogItem) {
    match item
    case Event(m, _) => HonestMessage(m)
    case Queued(r) => BootRequest(r)
  }

  /** Object 2 is the only registry, nothing is withdrawn, and there is no device and no offer yet. */
  ghost predicate PlainPeer(p: Peer) {
    && p.next >= 2 && p.withdrawn == {} && p.offers == map[] && Is(p, DISPLAY_ID, SDisplay)
    && (REGISTRY in p.objs ==> p.objs[REGISTRY].SRegistry?)
    && (forall id | id in p.objs :: id < p.next && !p.objs[id].SDevice? && (p.objs[id].SRegistry? ==> id == REGISTRY))
  }

  /** Before there is a device, an honest compositor is never to blame. */
  lemma {:induction false} BootItemJudged(p: Peer, item: LogItem)
    requires PlainPeer(p) && BootItem(item)
    ensures var v := JudgeItem(Fair(p), item);
            !v.CompositorAtFault? && (v.Fair? ==> PlainPeer(v.peer))
  {
    hide AdvertOf, Text, Word;
    match item
    case Event(m, _) =>
    case Queued(r) => BootRequestJudged(p, r);
  }

  lemma {:induction false} BootRequestJudged(p: Peer, r: Request)
    requires PlainPeer(p) && BootRequest(r)
    ensures var v := JudgeRequest(p, MessageOf(r));
            !v.CompositorAtFault? && (v.Fair? ==> PlainPeer(v.peer))
  {
    hide ReadArgs, EncodeArgs;
    if r.id == DISPLAY_ID {
      assert KindsOf(r.args) == [UIntKind];
      WordsFit(r);
      JudgeEncoded(p, r);
    }
  }

  lemma {:induction false} BootLogJudged(p: Peer, log: seq<LogItem>)
    requires PlainPeer(p) && forall item | item in log :: BootItem(item)
    ensures var v := Judge(Fair(p), log);
            !v.CompositorAtFault? && (v.Fair? ==> PlainPeer(v.peer))
    decreases |log|
  {
    hide JudgeItem, PlainPeer, BootItem;
    if log != [] {
      BootItemJudged(p, log[0]);
      var v := JudgeItem(Fair(p), log[0]);
      if v.Fair? {
        BootLogJudged(v.peer, log[1..]);
      } else {
        JudgeAfterFault(v, log[1..]);
      }
    }
  }

  // ---- Where the events of a log come from --------------------------------

  predicate HonestLog(log: seq<LogItem>) {
    forall item | item in log && item.Event? :: HonestMessage(item.msg)
  }

  lemma {:induction false} FoldIsHonest<S>(h: Handler<S>, done: S -> bool, objects: Table, st: S, ps: seq<Packet>)
    requires Honest(ps)
    ensures var f := FoldUntil(h, done, objects, st, ps); HonestLog(f.log) && Honest(f.rest)
    decreases |ps|
  {
    hide HonestMessage;
    if !done(st) && ps != [] {
      var e := h.handle(objects, st, ps[0].msg, FdOf(ps[0]));
      assert ps[0] in ps && forall p | p in ps[1..] :: p in ps;
      FoldIsHonest(h, done, e.objects, e.st, ps[1..]);
    }
  }

  lemma {:induction false} StoryIsHonest<S>(h: Handler<S>, program: seq<Phase<S>>, objects: Table, nextId: U32, st: S,
                                            ps: seq<Packet>)
    requires Honest(ps)
    ensures HonestLog(FoldPhases(h, program, objects, nextId, st, ps).log)
    decreases |program|
  {
    hide HonestMessage, FoldUntil;
    if program != [] {
      var e := program[0].enter(objects, nextId, st);
      if e.Entered? {
        FoldIsHonest(h, program[0].done, e.objects, e.st, ps);
        var s := FoldPhase(h, program[0], objects, nextId, st, ps);
        StoryIsHonest(h, program[1..], s.objects, s.nextId, s.st, s.rest);
      }
    }
  }

  /** A completed bootstrap with an honest compositor leaves the verdict open. */
  lemma {:induction false} BootIsFair(log: seq<LogItem>, selector: Name, seats: seq<Global>, managers: seq<Global>)
    requires managers != [] && PickSeat(selector, |seats|).Some?
    requires HonestLog(log) && Requests(log) == BootRequests(selector, seats, managers)
    ensures var v := Judge(Fair(NEW_PEER), log);
            !v.CompositorAtFault? && (v.Fair? ==> PlainPeer(v.peer))
  {
    hide HonestMessage, Requests, Judge, PickSeat;
    forall item | item in log ensures BootItem(item) {
      if item.Queued? {
        QueuedIsRequested(log, item);
      }
    }
    BootLogJudged(NEW_PEER, log);
  }

  /** An honest compositor's bootstrap binds nothing that was withdrawn. */
  lemma {:induction false} NothingWithdrawn(selector: Name, m: Machine<CopySession>, ps: seq<Packet>)
    requires exists bytes, mimes, oneshot :: m.st == NewCopy(bytes, mimes, oneshot)
    requires m == NewMachine(m.st, m.sends, m.recvs)
    requires Faithful(ps, m.q, m.recvs) && Honest(ps) && BootSpared(BarriersOf(ps))
    requires MatchedPhases(CopyDispatcher(), Bootstrap<CopyState>(selector), m.objects, m.nextId, m.st, ps)
    ensures !BoundWithdrawn(CopyDispatcher(), selector, m)
  {
    hide Faithful, Honest, MatchedPhases, Judge, RunPhase, FoldPhase, FoldPhases, Requests, BarriersOf, HonestLog,
      HonestMessage, PickSeat, EnterBind, GlobalsIn, Spared;
    var h, boot := CopyDispatcher(), Bootstrap<CopyState>(selector);
    var first := boot[0];
    MatchedFirst(h, boot, m.objects, m.nextId, m.st, ps);
    PhaseTransports(h, first, m, ps);
    CopyActsCommon();
    FirstWait(h, m.st.ext, selector, ps);
    OneStory(h, first, m.objects, m.nextId, m.st, ps);
    StoryIsHonest(h, [first], m.objects, m.nextId, m.st, ps);
    var (status, b) := RunPhase(h, first, m);
    if status.Completed? {
      assert b.log[|m.log|..] == b.log;
      RegistryLogJudged(b.log);
    }
  }

  lemma {:induction false} RegistryLogJudged(log: seq<LogItem>)
    requires HonestLog(log) && Requests(log) == [GetRegistry(REGISTRY), Sync(FIRST_SYNC)]
    ensures var v := Judge(Fair(NEW_PEER), log); v.Fair? ==> v.peer.withdrawn == {}
  {
    hide HonestMessage, Requests, Judge;
    forall item | item in log ensures BootItem(item) {
      if item.Queued? {
        QueuedIsRequested(log, item);
      }
    }
    BootLogJudged(NEW_PEER, log);
  }

  // ---- When a copy is to blame --------------------------------------------

  /** With an honest compositor that withdraws nothing, whatever the chunks and partial sends: the copy is first to
      break a judged rule exactly when its messages let it past the checks, the kernel takes the requests of
      bootstrap, and it has a type too long to offer. */
  lemma {:induction false} CopyBlamedIff(selector: Name, sel: Selection, bytes: seq<Byte>, mimes: seq<Name>,
                                         oneshot: bool, sends: seq<SendAnswer>, recvs: seq<RecvAnswer>,
                                         ps: seq<Packet>)
    requires Faithful(ps, Queues([], [], [], []), recvs) && Honest(ps) && BootSpared(BarriersOf(ps))
    requires MatchedPhases(CopyDispatcher(), Bootstrap<CopyState>(selector), map[DISPLAY_ID := Display], CLIENT_ID_MIN,
                           NewCopy(bytes, mimes, oneshot), ps)
    requires Whole(ps, Queues([], [], [], []), recvs)
    ensures var m := NewMachine(NewCopy(bytes, mimes, oneshot), sends, recvs);
            var r := RunPhases(CopyDispatcher(), CopyProgram(selector, sel), m).1;
            Judge(Fair(NEW_PEER), r.log).ClientAtFault? <==>
              && PhasesFlow(CopyDispatcher(), Bootstrap<CopyState>(selector), m)
              && Reaches(selector, sel, ps) && mimes != [] && !Sendable(mimes)
  {
    hide Faithful, Honest, BarriersOf, BootSpared, MatchedPhases, PhasesFlow, Judge, Sendable, RunPhases, FoldPhases,
      Bootstrap, NameMatches, PickSeat, GlobalsIn, NameIn, BootRequests, Inv, Requests, Whole, Preserved, HonestLog,
      BoundWithdrawn;
    var h, m := CopyDispatcher(), NewMachine(NewCopy(bytes, mimes, oneshot), sends, recvs);
    var program := Bootstrap<CopyState>(selector);
    CopyConformsIff(selector, sel, bytes, mimes, oneshot, sends, recvs);
    NothingWithdrawn(selector, m, ps);
    BootIsNotBlamed(selector, m);
    PhasesComplete(h, program, m, ps);
    CopyActsCommon();
    BootstrapStory(h, m.st.ext, selector, ps);
    var (booted, b) := RunPhases(h, program, m);
    if booted.Completed? {
      var seats, managers := GlobalsIn(BarriersOf(ps).first, REGISTRY, IF_SEAT),
          GlobalsIn(BarriersOf(ps).first, REGISTRY, IF_MANAGER);
      StoryIsHonest(h, program, m.objects, m.nextId, m.st, ps);
      assert b.log[|m.log|..] == b.log;
      BootIsFair(b.log, selector, seats, managers);
    }
  }

  lemma {:induction false} BootIsNotBlamed(selector: Name, m: Machine<CopySession>)
    requires exists bytes, mimes, oneshot :: m.st == NewCopy(bytes, mimes, oneshot)
    requires m == NewMachine(m.st, m.sends, m.recvs) && !BoundWithdrawn(CopyDispatcher(), selector, m)
    ensures var (status, b) := RunPhases(CopyDispatcher(), Bootstrap<CopyState>(selector), m);
            && !Judge(Fair(NEW_PEER), b.log).ClientAtFault?
            && (status.Completed? ==>
                  b.st.seatId != 0 && b.st.managerId != 0 && Inv(CopyLens(), 7, b.st, b.objects, b.st, b.log))
  {
    hide Judge, Preserved, RunPhases, Bootstrap, Inv, InvFor, BoundWithdrawn;
    forall nextId, st0 ensures Preserved(CopyDispatcher(), InvFor(CopyLens(), nextId, st0)) {
      CopyPreserves(nextId, st0);
    }
    StartConforms(CopyLens(), m.st);
    BootstrapConforms(CopyDispatcher(), CopyLens(), selector, m);
  }

  lemma {:induction false} BootIsLight(selector: Name)
    ensures Silent(CopyDispatcher()) && Light(Bootstrap<CopyState>(selector))
  {
    hide NoteGlobal, AdvertOf, OnSource, Word, Text, NameMatches, PickSeat, EncodeRequests;
  }

  // ---- A run that does ----------------------------------------------------

  /** Only object 7 can be a source. */
  ghost predicate SourceAt7(objects: Table) {
    forall id | id in objects && objects[id] == Source :: id == 7
  }

  /** Nothing here is for a source, and nothing carries a descriptor. */
  predicate Plain(ps: seq<Packet>) {
    forall p | p in ps :: p.fd.None? && p.msg.id != 7
  }

  lemma {:induction false} WaitMatched(done: CopySession -> bool, objects: Table, st: CopySession, ps: seq<Packet>)
    requires SourceAt7(objects) && Plain(ps)
    ensures Matched(CopyDispatcher(), done, objects, st, ps)
    ensures var f := FoldUntil(CopyDispatcher(), done, objects, st, ps); SourceAt7(f.objects) && Plain(f.rest)
    decreases |ps|
  {
    hide AdvertOf, Text, Word, NoteGlobal, OnSource;
    if ps != [] && !done(st) {
      var e := CopyHandle(objects, st, ps[0].msg, FdOf(ps[0]));
      assert ps[0] in ps && forall p | p in ps[1..] :: p in ps;
      WaitMatched(done, e.objects, e.st, ps[1..]);
    }
  }

  lemma {:induction false} CopyMatched(selector: Name, sel: Selection, st: CopySession, ps: seq<Packet>)
    requires Plain(ps)
    ensures MatchedPhases(CopyDispatcher(), CopyProgram(selector, sel), map[DISPLAY_ID := Display], CLIENT_ID_MIN, st,
                          ps)
    ensures MatchedPhases(CopyDispatcher(), Bootstrap<CopyState>(selector), map[DISPLAY_ID := Display], CLIENT_ID_MIN,
                          st, ps)
  {
    hide Matched, FoldUntil, PickSeat, NameMatches, SourceAt7, Plain;
    var h, objects := CopyDispatcher(), map[DISPLAY_ID := Display];
    var boot, p := Bootstrap<CopyState>(selector), CopyPhase(selector, sel);
    var program := CopyProgram(selector, sel);
    NoSourceYet();
    EnterKeepsSource(selector, sel, objects, CLIENT_ID_MIN, st);
    var e := EnterRegistry(objects, CLIENT_ID_MIN, st);
    WaitMatched(SyncDone(), e.objects, e.st, ps);
    var s := FoldPhase(h, boot[0], objects, CLIENT_ID_MIN, st, ps);
    assert s.nextId == 4;
    EnterKeepsSource(selector, sel, s.objects, 4, s.st);
    var e2 := EnterBind(selector, s.objects, s.nextId, s.st);
    if e2.Entered? {
      WaitMatched(SyncDone(), e2.objects, e2.st, s.rest);
    }
    var t := FoldPhase(h, boot[1], s.objects, s.nextId, s.st, s.rest);
    if e2.Entered? {
      assert t.nextId == 7;
      EnterKeepsSource(selector, sel, t.objects, 7, t.st);
      var e3 := EnterCopy(selector, sel, t.objects, t.nextId, t.st);
      if e3.Entered? {
        WaitMatched(CopyDone(), e3.objects, e3.st, t.rest);
      }
    }
    assert boot[1..] == [boot[1]] && boot[1..][1..] == [];
    assert program[0] == boot[0] && program[1..] == [boot[1], p] && program[1..][1..] == [p] && [p][1..] == [];
    MatchedLast(h, boot[1], s.objects, s.nextId, s.st, s.rest);
    if e2.Entered? {
      MatchedLast(h, p, t.objects, t.nextId, t.st, t.rest);
    }
    assert MatchedPhases(h, boot[1..], s.objects, s.nextId, s.st, s.rest);
    assert MatchedPhases(h, program[1..], s.objects, s.nextId, s.st, s.rest);
  }

  lemma {:induction false} NoSourceYet()
    ensures SourceAt7(map[DISPLAY_ID := Display])
  {
  }

  lemma {:induction false} MatchedLast<S>(h: Handler<S>, p: Phase<S>, objects: Table, nextId: U32, st: S,
                                          ps: seq<Packet>)
    requires var e := p.enter(objects, nextId, st); e.Entered? ==> Matched(h, p.done, e.objects, e.st, ps)
    ensures MatchedPhases(h, [p], objects, nextId, st, ps)
  {
    hide Matched, FoldUntil;
    assert [p][1..] == [];
    var s := FoldPhase(h, p, objects, nextId, st, ps);
    assert MatchedPhases(h, [], s.objects, s.nextId, s.st, s.rest);
  }

  lemma {:induction false} EnterKeepsSource(selector: Name, sel: Selection, objects: Table, nextId: U32,
                                            st: CopySession)
    requires SourceAt7(objects) && nextId in {2, 4, 7}
    ensures SourceAt7(EnterRegistry(objects, nextId, st).objects)
    ensures var e := EnterBind(selector, objects, nextId, st);
            e.Entered? ==> SourceAt7(e.objects) && e.nextId == nextId + 3
    ensures var e := EnterCopy(selector, sel, objects, nextId, st);
            e.Entered? && nextId == 7 ==> SourceAt7(e.objects)
  {
    hide PickSeat, NameMatches;
  }

  /** Such runs exist: for every list with a type too long to offer, a compositor with one seat and one manager and
      a kernel that takes one byte at a time make the copy break a judged rule. */
  lemma {:induction false} BlamedRunExists(bytes: seq<Byte>, mimes: seq<Name>, oneshot: bool)
    returns (sends: seq<SendAnswer>, recvs: seq<RecvAnswer>)
    requires !Sendable(mimes)
    ensures var m := NewMachine(NewCopy(bytes, mimes, oneshot), sends, recvs);
            && RunPhases(CopyDispatcher(), Bootstrap<CopyState>([]), m).0.Completed?
            && Judge(Fair(NEW_PEER), RunPhases(CopyDispatcher(), CopyProgram([], Regular), m).1.log).ClientAtFault?
  {
    hide Faithful, Honest, BarriersOf, BootSpared, MatchedPhases, Judge, Sendable, RunPhases, FoldPhases, Bootstrap,
      Welcome, Reaches, EncodePackets, Whole, Cost, Willing, Silent, Light, PhasesFlow, Greeting, EnterCopy,
      BoundWithdrawn, Plain;
    var ps, h, program := Welcome() + [], CopyDispatcher(), Bootstrap<CopyState>([]);
    var st := NewCopy(bytes, mimes, oneshot);
    NoPackets();
    WelcomeReaches(Regular, []);
    WelcomeIsHonest([]);
    GreetingIsFaithful([]);
    CopyMatched([], Regular, st, ps) by { WelcomeIsPlain([]) by { NoPackets(); } }
    recvs := Greeting([]);
    var cost := Cost(FoldPhases(h, program, map[DISPLAY_ID := Display], CLIENT_ID_MIN, st, ps).log);
    sends := OneByOne(cost);
    OneByOneWilling(cost);
    var m := NewMachine(st, sends, recvs);
    BootIsLight([]);
    StoryFlows(h, program, m, ps);
    assert mimes != [] by { NoneIsSendable(); }
    CopyBlamedIff([], Regular, bytes, mimes, oneshot, sends, recvs, ps);
    NothingWithdrawn([], m, ps);
    CopyConformsIff([], Regular, bytes, mimes, oneshot, sends, recvs);
  }

  lemma {:induction false} NoPackets()
    ensures EncodePackets([]) == [] && Honest([]) && Plain([])
  {
  }

  lemma {:induction false} WelcomeIsHonest(rest: seq<Packet>)
    requires Honest(rest)
    ensures Honest(Welcome() + rest)
  {
    hide AdvertOf, EncodeArgs, Ascii, Le32;
    assert |IF_SEAT| == 7 && |IF_MANAGER| == 28;
    GlobalAdvertised(Global(1, 1), IF_SEAT);
    GlobalAdvertised(Global(2, 2), IF_MANAGER);
  }

  lemma {:induction false} WelcomeIsPlain(rest: seq<Packet>)
    requires Plain(rest)
    ensures Plain(Welcome() + rest)
  {
    hide EncodeArgs, Ascii, Le32;
  }

  lemma {:induction false} NoneIsSendable()
    ensures Sendable([])
  {
  }
}
