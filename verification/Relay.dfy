/** Copy and paste through one compositor, which reads the copying client's bytes, tells the pasting client, and passes
    its request for data on. */
module Relay {
  import opened Bytes
  import opened Wire
  import opened Connections
  import opened Dispatching
  import opened Clients
  import opened Phases
  import opened Completion
  import opened Mime
  import opened Handcrafted
  import opened Compositor
  import opened ConformantRuns
  import opened SyncBarrier
  import CopyRuns
  import opened PasteRuns
  import opened Greetings
  import opened Superseding
  import Transfer

  // ---- The compositor between them ----------------------------------------

  /** The types a copying client offers, read off its messages. */
  function OfferedIn(ms: seq<Message>): seq<Name> {
    if ms == [] then []
    else
      (if ms[0].id == CopyRuns.SOURCE && ms[0].opcode == 0 then [Text(ms[0])] else [])
      + OfferedIn(ms[1..])
  }

  /** The selections a copying client takes with its source, read off its messages: the regular one by opcode 0 and the
      primary one by opcode 2. */
  function TakenIn(ms: seq<Message>): seq<Selection> {
    if ms == [] then []
    else
      (if ms[0].id != 8 || Word(ms[0]) != 7 then []
       else if ms[0].opcode == 0 then [Regular]
       else if ms[0].opcode == 2 then [Primary]
       else [])
      + TakenIn(ms[1..])
  }

  /** The types a pasting client asks an offer for, read off its messages. */
  function AskedIn(ms: seq<Message>, offer: U32): seq<Name> {
    if ms == [] then []
    else (if ms[0].id == offer && ms[0].opcode == 0 then [Text(ms[0])] else []) + AskedIn(ms[1..], offer)
  }

  function MimeEvents(offer: U32, mimes: seq<Name>): (ps: seq<Packet>)
    ensures |ps| == |mimes|
  {
    if mimes == [] then [] else [TextEvent(offer, 0, mimes[0])] + MimeEvents(offer, mimes[1..])
  }

  /** What the pasting client is told: the offer, its types, and its selection. */
  function Announcement(sel: Selection, offer: U32, mimes: seq<Name>): seq<Packet> {
    [WordEvent(DEVICE, 0, offer)] + MimeEvents(offer, mimes) +
        [WordEvent(DEVICE, SelectionOpcode(sel), offer)]
  }

  /** The same for the selections that were taken, whichever they are. */
  function Told(kinds: seq<Selection>, offer: U32, mimes: seq<Name>): seq<Packet> {
    [WordEvent(DEVICE, 0, offer)] + MimeEvents(offer, mimes) + Shown(kinds, offer)
  }

  function Shown(kinds: seq<Selection>, offer: U32): seq<Packet> {
    if kinds == [] then [] else [WordEvent(DEVICE, SelectionOpcode(kinds[0]), offer)] + Shown(kinds[1..], offer)
  }

  lemma {:induction false} ToldOfOne(sel: Selection, offer: U32, mimes: seq<Name>)
    ensures Told([sel], offer, mimes) == Announcement(sel, offer, mimes)
  {
    hide Le32, EncodeArgs, SelectionOpcode;
    var one := [sel];
    assert one[1..] == [] && Shown([], offer) == [];
    assert Shown(one, offer) == [WordEvent(DEVICE, SelectionOpcode(sel), offer)];
  }

  /** The request for data as the copying client gets it, on the descriptor of the transfer. */
  function SendEvents(asked: seq<Name>, fd: int): seq<Packet> {
    if asked == [] then []
    else [TextEvent(CopyRuns.SOURCE, 0, asked[0]).(fd := Some(fd))] + SendEvents(asked[1..], fd)
  }

  // ---- What the copying client says ---------------------------------------

  lemma {:induction false} OfferedConcat(a: seq<Message>, b: seq<Message>)
    ensures OfferedIn(a + b) == OfferedIn(a) + OfferedIn(b)
    decreases |a|
  {
    hide Text;
    if a == [] {
      assert a + b == b;
    } else {
      assert (a + b)[1..] == a[1..] + b;
      OfferedConcat(a[1..], b);
      Assoc(if a[0].id == CopyRuns.SOURCE && a[0].opcode == 0 then [Text(a[0])] else [],
            OfferedIn(a[1..]), OfferedIn(b));
    }
  }

  lemma {:induction false} NothingOffered(ms: seq<Message>)
    requires forall m | m in ms :: m.id != CopyRuns.SOURCE
    ensures OfferedIn(ms) == []
    decreases |ms|
  {
    hide Text;
    if ms != [] {
      assert ms[0] in ms && forall m | m in ms[1..] :: m in ms;
      NothingOffered(ms[1..]);
    }
  }

  lemma {:induction false} TakenConcat(a: seq<Message>, b: seq<Message>)
    ensures TakenIn(a + b) == TakenIn(a) + TakenIn(b)
    decreases |a|
  {
    hide Word;
    if a == [] {
      assert a + b == b;
    } else {
      assert (a + b)[1..] == a[1..] + b;
      TakenConcat(a[1..], b);
      Assoc(TakenIn([a[0]]), TakenIn(a[1..]), TakenIn(b));
      TakenFirst(a);
      TakenFirst(a + b);
    }
  }

  lemma {:induction false} TakenFirst(ms: seq<Message>)
    requires ms != []
    ensures TakenIn(ms) == TakenIn([ms[0]]) + TakenIn(ms[1..])
  {
    hide Word;
    var one := [ms[0]];
    assert one[1..] == [] && TakenIn([]) == [];
  }

  lemma {:induction false} NothingTaken(ms: seq<Message>)
    requires forall m | m in ms :: m.id != 8
    ensures TakenIn(ms) == []
    decreases |ms|
  {
    hide Word;
    if ms != [] {
      assert ms[0] in ms && forall m | m in ms[1..] :: m in ms;
      NothingTaken(ms[1..]);
    }
  }

  lemma {:induction false} OfferMessageIsRead(obj: U32, opcode: U16, text: Name)
    requires |text| <= MAX_TEXT
    ensures var m := MessageOf(Request(obj, opcode, [Str(text)])); Text(m) == text && Fits(m)
  {
    hide Text, Fits, EncodeArgs;
    TextIsRead(obj, opcode, text);
  }

  lemma {:induction false} OffersAreRead(mimes: seq<Name>)
    requires Sendable(mimes)
    ensures OfferedIn(MessagesOf(SourceOffers(CopyRuns.SOURCE, mimes))) == mimes
    decreases |mimes|
  {
    hide Text, Fits, EncodeArgs, Sendable;
    if mimes != [] {
      var rs := SourceOffers(CopyRuns.SOURCE, mimes);
      var ms := MessagesOf(rs);
      FirstSendable(mimes);
      OfferMessageIsRead(CopyRuns.SOURCE, 0, mimes[0]);
      OffersAreRead(mimes[1..]);
      assert ms[1..] == MessagesOf(SourceOffers(CopyRuns.SOURCE, mimes[1..]));
      assert ms[0] == MessageOf(SourceOffer(CopyRuns.SOURCE, mimes[0]));
      assert [mimes[0]] + mimes[1..] == mimes;
    }
  }

  lemma {:induction false} FirstSendable(mimes: seq<Name>)
    requires Sendable(mimes) && mimes != []
    ensures |mimes[0]| <= MAX_TEXT && Sendable(mimes[1..])
  {
    assert mimes[0] in mimes && forall m | m in mimes[1..] :: m in mimes;
  }

  lemma {:induction false} OffersFit(mimes: seq<Name>)
    requires Sendable(mimes)
    ensures forall r | r in SourceOffers(CopyRuns.SOURCE, mimes) :: Fits(MessageOf(r))
  {
    hide Text, Fits, EncodeArgs;
    var rs := SourceOffers(CopyRuns.SOURCE, mimes);
    forall r | r in rs ensures Fits(MessageOf(r)) {
      var i :| 0 <= i < |rs| && rs[i] == r;
      assert mimes[i] in mimes;
      OfferMessageIsRead(CopyRuns.SOURCE, 0, mimes[i]);
    }
  }

  lemma {:induction false} MessagesConcat(a: seq<Request>, b: seq<Request>)
    ensures MessagesOf(a + b) == MessagesOf(a) + MessagesOf(b)
  {
  }

  /** Bootstrap's requests fit their messages and concern neither source nor offer. */
  lemma {:induction false} BootRequestsFit(selector: Name, seats: seq<Global>, managers: seq<Global>)
    requires managers != [] && PickSeat(selector, |seats|).Some?
    ensures forall r | r in BootRequests(selector, seats, managers) :: Fits(MessageOf(r)) && r.id <= 2
  {
    hide Fits, PickSeat, Ascii, EncodeArgs;
    assert |IF_SEAT| == 7 && |IF_MANAGER| == 28;
    var rs := BootRequests(selector, seats, managers);
    WordsFit(rs[0]);
    WordsFit(rs[1]);
    WordsFit(rs[4]);
    var sg, mg := seats[PickSeat(selector, |seats|).value], managers[0];
    BindFits(REGISTRY, sg.name, IF_SEAT, Min(sg.version, 7), SEAT);
    BindFits(REGISTRY, mg.name, IF_MANAGER, Min(mg.version, 2), MANAGER);
  }

  /** The one-shot reading of a silent client makes no requests. */
  lemma {:induction false} FoldIsSilent<S(!new)>(h: Handler<S>, done: S -> bool, objects: Table, st: S, ps: seq<Packet>)
    requires Silent(h)
    ensures Requests(FoldUntil(h, done, objects, st, ps).log) == []
    decreases |ps|
  {
    hide Requests, Silent;
    assert Requests([]) == [] by { NoRequests(); }
    if !done(st) && ps != [] {
      var e := h.handle(objects, st, ps[0].msg, FdOf(ps[0]));
      assert e.replies == [] by { SilentReplies(h, objects, st, ps[0].msg, FdOf(ps[0])); }
      FoldIsSilent(h, done, e.objects, e.st, ps[1..]);
      var f := FoldUntil(h, done, e.objects, e.st, ps[1..]);
      assert [Event(ps[0].msg, FdOf(ps[0]))] + QueuedItems([]) + f.log == [Event(ps[0].msg, FdOf(ps[0]))] + f.log;
      RequestsConcat([Event(ps[0].msg, FdOf(ps[0]))], f.log);
      NoRequest([], ps[0].msg, FdOf(ps[0]));
      assert [] + [Event(ps[0].msg, FdOf(ps[0]))] == [Event(ps[0].msg, FdOf(ps[0]))];
    }
  }

  lemma {:induction false} NoRequests()
    ensures Requests([]) == []
  {
  }

  lemma {:induction false} SilentReplies<S(!new)>(h: Handler<S>, objects: Table, st: S, msg: Message, fd: int)
    requires Silent(h)
    ensures h.handle(objects, st, msg, fd).replies == []
  {
  }

  /** The requests of one phase. */
  lemma {:induction false} PhaseRequests<S(!new)>(h: Handler<S>, p: Phase<S>, objects: Table, nextId: U32, st: S,
                                                  ps: seq<Packet>)
    requires Silent(h) && p.enter(objects, nextId, st).Entered?
    ensures Requests(FoldPhase(h, p, objects, nextId, st, ps).log) == p.enter(objects, nextId, st).reqs
  {
    hide Requests, FoldUntil, Silent;
    var e := p.enter(objects, nextId, st);
    FoldIsSilent(h, p.done, e.objects, e.st, ps);
    RequestsConcat(QueuedItems(e.reqs), FoldUntil(h, p.done, e.objects, e.st, ps).log);
    RequestsOfQueued(e.reqs);
    assert e.reqs + [] == e.reqs;
  }

  // ---- The announcement, as the pasting client reads it -------------------

  lemma {:induction false} AnnouncementEvents(sel: Selection, offer: U32, mimes: seq<Name>)
    requires Sendable(mimes) && offer >= SERVER_ID_MIN
    ensures var evs := EventsOf(Announcement(sel, offer, mimes));
            && |evs| == |mimes| + 2
            && evs[0] == OfferMade(offer) && evs[|mimes| + 1] == Selected(sel, offer)
            && forall i | 0 <= i < |mimes| :: evs[i + 1] == OfferMime(offer, mimes[i])
    ensures LawfulTrace(Announcement(sel, offer, mimes))
  {
    hide Word, Text, EncodeArgs, Le32, Sendable;
    var ps := Announcement(sel, offer, mimes);
    WordIsRead(DEVICE, 0, offer);
    WordIsRead(DEVICE, SelectionOpcode(sel), offer);
    forall i | 0 <= i < |mimes|
      ensures ps[i + 1] == TextEvent(offer, 0, mimes[i]) &&
              EventOf(ps[i + 1].msg) == OfferMime(offer, mimes[i])
    {
      MimeEventAt(offer, mimes, i);
      assert |mimes[i]| <= MAX_TEXT by { EachSendable(mimes, i); }
      TextIsRead(offer, 0, mimes[i]);
    }
    forall p | p in ps ensures Lawful(p) {
      var i :| 0 <= i < |ps| && ps[i] == p;
      assert i == 0 || i == |mimes| + 1 || ps[i - 1 + 1] == TextEvent(offer, 0, mimes[i - 1]);
    }
  }

  lemma {:induction false} EachSendable(mimes: seq<Name>, i: nat)
    requires Sendable(mimes) && i < |mimes|
    ensures |mimes[i]| <= MAX_TEXT
  {
  }

  lemma {:induction false} MimeEventAt(offer: U32, mimes: seq<Name>, i: nat)
    requires i < |mimes|
    ensures MimeEvents(offer, mimes)[i] == TextEvent(offer, 0, mimes[i])
    decreases |mimes|
  {
    hide EncodeArgs;
    if i > 0 {
      MimeEventAt(offer, mimes[1..], i - 1);
    }
  }

  lemma {:induction false} TypesInOrder(evs: seq<ClipEvent>, offer: U32, mimes: seq<Name>)
    requires |evs| == |mimes| && forall i | 0 <= i < |mimes| :: evs[i] == OfferMime(offer, mimes[i])
    ensures MimesFor(evs, offer) == mimes
    decreases |mimes|
  {
    if mimes != [] {
      TypesInOrder(evs[1..], offer, mimes[1..]);
      assert [mimes[0]] + mimes[1..] == mimes;
    }
  }

  /** The relayed offer is the one the announcement selects, with the copying client's types in their order. */
  lemma {:induction false} AnnouncementSelects(sel: Selection, offer: U32, mimes: seq<Name>)
    requires Sendable(mimes) && offer >= SERVER_ID_MIN
    ensures SelectedTypes(sel, EventsOf(Announcement(sel, offer, mimes))) == Some(mimes)
  {
    hide Announcement, EventsOf, Sendable;
    var evs := EventsOf(Announcement(sel, offer, mimes));
    AnnouncementEvents(sel, offer, mimes);
    var n := |mimes|;
    forall i | 1 <= i < n + 1 ensures evs[i].OfferMime? {
      assert evs[(i - 1) + 1] == OfferMime(offer, mimes[i - 1]);
    }
    assert IsTarget(sel, evs[n + 1]) && forall i | 0 <= i < n + 1 :: !IsTarget(sel, evs[i]);
    assert FirstTarget(sel, evs) == n + 1;
    var before := evs[..n + 1];
    assert before[0] == OfferMade(offer) && before[1..] == evs[1..n + 1];
    TypesInOrder(before[1..], offer, mimes);
  }

  // ---- The copying side ---------------------------------------------------

  /** A client's connection: the kernel's answers to its sends, what it receives, and the messages behind that. */
  datatype Link = Link(sends: seq<SendAnswer>, recvs: seq<RecvAnswer>, ps: seq<Packet>)

  /** All of the compositor's messages come through, and it spares what bootstrap needs. */
  ghost predicate Carries(l: Link) {
    && Faithful(l.ps, Queues([], [], [], []), l.recvs) && Whole(l.ps, Queues([], [], [], []), l.recvs)
    && BootSpared(BarriersOf(l.ps))
  }

  function CopyStart(payload: seq<Byte>, mimes: seq<Name>, oneshot: bool, l: Link): Machine<CopySession> {
    NewMachine(NewCopy(payload, mimes, oneshot), l.sends, l.recvs)
  }

  /** A copy that comes to offering its types, with the kernel taking what it sends. */
  ghost predicate Copies(selector: Name, sel: Selection, payload: seq<Byte>, mimes: seq<Name>, oneshot: bool, l: Link) {
    && Carries(l) && Reaches(selector, sel, l.ps) && mimes != [] && Sendable(mimes)
    && MatchedPhases(CopyDispatcher(), CopyProgram(selector, sel), map[DISPLAY_ID := Display], CLIENT_ID_MIN,
                     NewCopy(payload, mimes, oneshot), l.ps)
    && PhasesFlow(CopyDispatcher(), CopyProgram(selector, sel), CopyStart(payload, mimes, oneshot, l))
  }

  /** The last phase of a program, from the state its story gives it. */
  lemma {:induction false} LastPhase<S(!new)>(h: Handler<S>, a: seq<Phase<S>>, p: Phase<S>, m: Machine<S>,
                                              ps: seq<Packet>)
    requires Faithful(ps, m.q, m.recvs) && Whole(ps, m.q, m.recvs)
    requires MatchedPhases(h, a + [p], m.objects, m.nextId, m.st, ps) && PhasesFlow(h, a + [p], m)
    requires FoldPhases(h, a, m.objects, m.nextId, m.st, ps).status.Completed?
    ensures var s := FoldPhases(h, a, m.objects, m.nextId, m.st, ps);
            var (status, b) := RunPhases(h, a, m);
            && status.Completed? && b.objects == s.objects && b.nextId == s.nextId && b.st == s.st
            && RunPhases(h, a + [p], m) == RunPhase(h, p, b) && PhasesFlow(h, [p], b)
    ensures var s := FoldPhases(h, a, m.objects, m.nextId, m.st, ps);
            var t := FoldPhase(h, p, s.objects, s.nextId, s.st, s.rest);
            var (status, r) := RunPhases(h, a + [p], m);
            m.log <= r.log && r.log[|m.log|..] == s.log + t.log && r.st == t.st && status == t.status
  {
    hide Faithful, Whole, MatchedPhases, PhasesFlow, RunPhases, FoldPhases, RunPhase, FoldPhase;
    MatchedInit(h, a, [p], m.objects, m.nextId, m.st, ps);
    FlowsConcat(h, a, [p], m);
    PhasesComplete(h, a, m, ps);
    PhasesComplete(h, a + [p], m, ps);
    PhasesConcat(h, a, [p], m);
    StoriesConcat(h, a, [p], m.objects, m.nextId, m.st, ps);
    var s := FoldPhases(h, a, m.objects, m.nextId, m.st, ps);
    OneStory(h, p, s.objects, s.nextId, s.st, s.rest);
    OnePhase(h, p, RunPhases(h, a, m).1);
  }

  lemma {:induction false} MatchedInit<S>(h: Handler<S>, a: seq<Phase<S>>, b: seq<Phase<S>>, objects: Table,
                                          nextId: U32, st: S, ps: seq<Packet>)
    requires MatchedPhases(h, a + b, objects, nextId, st, ps)
    ensures MatchedPhases(h, a, objects, nextId, st, ps)
    decreases |a|
  {
    hide Matched, FoldUntil;
    if a != [] {
      assert (a + b)[0] == a[0] && (a + b)[1..] == a[1..] + b;
      var e := a[0].enter(objects, nextId, st);
      if e.Entered? {
        var s := FoldPhase(h, a[0], objects, nextId, st, ps);
        if s.status.Completed? {
          MatchedInit(h, a[1..], b, s.objects, s.nextId, s.st, s.rest);
        }
      }
    }
  }

  lemma {:induction false} FlowsInPhase<S>(h: Handler<S>, p: Phase<S>, m: Machine<S>)
    requires PhasesFlow(h, [p], m) && p.enter(m.objects, m.nextId, m.st).Entered?
    ensures Flows(h, p.done, EnterMachine(m, p.enter(m.objects, m.nextId, m.st)))
  {
    hide Flows, RunPhase;
  }

  function CopyRequests(sel: Selection, mimes: seq<Name>): seq<Request> {
    [CreateDataSource(MANAGER, CopyRuns.SOURCE), GetDataDevice(MANAGER, Next(CopyRuns.SOURCE), SEAT)]
    + SourceOffers(CopyRuns.SOURCE, mimes) + [SetSelection(Next(CopyRuns.SOURCE), sel, CopyRuns.SOURCE)]
  }

  lemma {:induction false} TakingIsRead(sel: Selection, mimes: seq<Name>)
    ensures TakenIn(MessagesOf(CopyRequests(sel, mimes))) == [sel]
  {
    hide Fits, Text, FromLe32, Le32, EncodeRequests;
    var head := [CreateDataSource(MANAGER, CopyRuns.SOURCE), GetDataDevice(MANAGER, Next(CopyRuns.SOURCE), SEAT)];
    var offers, last := SourceOffers(CopyRuns.SOURCE, mimes),
        [SetSelection(Next(CopyRuns.SOURCE), sel, CopyRuns.SOURCE)];
    MessagesConcat(head + offers, last);
    MessagesConcat(head, offers);
    TakenConcat(MessagesOf(head) + MessagesOf(offers), MessagesOf(last));
    NothingTaken(MessagesOf(head) + MessagesOf(offers));
    WordIsRead(8, 0, 7);
    var ms := MessagesOf(last);
    var args := [UInt(7)];
    assert args[1..] == [] && EncodeArgs([]) == [];
    assert ms[0].payload == Le32(7) + [] == Le32(7);
    assert Word(ms[0]) == 7;
    assert ms[1..] == [] && TakenIn([]) == [];
    assert [] + [sel] == [sel];
  }

  lemma {:induction false} CopyRequestsFit(sel: Selection, mimes: seq<Name>)
    requires Sendable(mimes)
    ensures forall r | r in CopyRequests(sel, mimes) :: Fits(MessageOf(r))
  {
    hide Fits, EncodeArgs, Sendable;
    WordsFit(CreateDataSource(MANAGER, CopyRuns.SOURCE));
    WordsFit(GetDataDevice(MANAGER, Next(CopyRuns.SOURCE), SEAT));
    WordsFit(SetSelection(Next(CopyRuns.SOURCE), sel, CopyRuns.SOURCE));
    OffersFit(mimes);
  }

  lemma {:induction false} CopyRequestsRead(sel: Selection, mimes: seq<Name>)
    requires Sendable(mimes)
    ensures OfferedIn(MessagesOf(CopyRequests(sel, mimes))) == mimes
    ensures forall r | r in CopyRequests(sel, mimes) :: Fits(MessageOf(r))
  {
    hide Fits, EncodeArgs, Text, Sendable, OfferedIn;
    var head := [CreateDataSource(MANAGER, CopyRuns.SOURCE), GetDataDevice(MANAGER, Next(CopyRuns.SOURCE), SEAT)];
    var offers, last := SourceOffers(CopyRuns.SOURCE, mimes),
        [SetSelection(Next(CopyRuns.SOURCE), sel, CopyRuns.SOURCE)];
    CopyRequestsFit(sel, mimes);
    OffersAreRead(mimes);
    MessagesConcat(head + offers, last);
    MessagesConcat(head, offers);
    OfferedConcat(MessagesOf(head) + MessagesOf(offers), MessagesOf(last));
    OfferedConcat(MessagesOf(head), MessagesOf(offers));
    NothingOffered(MessagesOf(head));
    NothingOffered(MessagesOf(last));
    assert [] + mimes + [] == mimes;
  }

  /** The copying client's run up to now: its requests, all of which went out. */
  lemma {:induction false} CopySays(selector: Name, sel: Selection, payload: seq<Byte>, mimes: seq<Name>,
                                    oneshot: bool, l: Link)
    requires Copies(selector, sel, payload, mimes, oneshot, l)
    ensures var r := RunPhases(CopyDispatcher(), CopyProgram(selector, sel), CopyStart(payload, mimes, oneshot, l)).1;
            var b := BarriersOf(l.ps);
            var seats, managers := GlobalsIn(b.first, REGISTRY, IF_SEAT), GlobalsIn(b.first, REGISTRY, IF_MANAGER);
            && managers != [] && PickSeat(selector, |seats|).Some?
            && Requests(r.log) == BootRequests(selector, seats, managers) + CopyRequests(sel, mimes)
            && Accounted(r) && r.q.outBuf == []
  {
    hide Faithful, Whole, MatchedPhases, PhasesFlow, RunPhases, FoldPhases, RunPhase, FoldPhase, Bootstrap, BarriersOf,
      BootSpared, GlobalsIn, NameIn, PickSeat, BootRequests, Requests, NameMatches, Sendable, Silent, Light, Accounted,
      FoldUntil, Run, Flows;
    var h, boot, p := CopyDispatcher(), Bootstrap<CopyState>(selector), CopyPhase(selector, sel);
    var m := CopyStart(payload, mimes, oneshot, l);
    CopyRuns.CopyIsLight(selector, sel);
    CopyActsCommon();
    BootstrapStory(h, m.st.ext, selector, l.ps);
    LastPhase(h, boot, p, m, l.ps);
    var s := FoldPhases(h, boot, m.objects, m.nextId, m.st, l.ps);
    var e := EnterCopy(selector, sel, s.objects, s.nextId, s.st);
    PhaseRequests(h, p, s.objects, s.nextId, s.st, s.rest);
    var t := FoldPhase(h, p, s.objects, s.nextId, s.st, s.rest);
    RequestsConcat(s.log, t.log);
    var b, r := RunPhases(h, boot, m).1, RunPhases(h, CopyProgram(selector, sel), m).1;
    assert r.log[|m.log|..] == r.log;
    FlowsInPhase(h, p, b);
    WaitEmpties(h, p.done, EnterMachine(b, e)) by { EnterState(b, e); }
    RunOfPhase(h, p, b);
    StartAccounted(m);
    PhasesAccount(h, CopyProgram(selector, sel), m);
  }

  lemma {:induction false} RunOfPhase<S>(h: Handler<S>, p: Phase<S>, m: Machine<S>)
    requires p.enter(m.objects, m.nextId, m.st).Entered?
    ensures RunPhase(h, p, m).1 == Run(h, p.done, EnterMachine(m, p.enter(m.objects, m.nextId, m.st))).1
  {
    hide Run, EnterMachine;
  }

  /** Off the bytes it got, the compositor reads the offered types, in order, and the one selection they are for. */
  lemma {:induction false} CopyIsRead(selector: Name, sel: Selection, payload: seq<Byte>, mimes: seq<Name>,
                                      oneshot: bool, l: Link)
    requires Copies(selector, sel, payload, mimes, oneshot, l)
    ensures var r := RunPhases(CopyDispatcher(), CopyProgram(selector, sel), CopyStart(payload, mimes, oneshot, l)).1;
            var ms := ParseAll(BatchBytes(r.shipped)).0;
            OfferedIn(ms) == mimes && TakenIn(ms) == [sel]
  {
    hide RunPhases, Carries, MatchedPhases, PhasesFlow, Accounted, Requests, BootRequests, CopyRequests, ParseAll,
      Fits, Reaches, Sendable, BarriersOf, GlobalsIn, PickSeat, MessageOf;
    CopySays(selector, sel, payload, mimes, oneshot, l);
    var r := RunPhases(CopyDispatcher(), CopyProgram(selector, sel), CopyStart(payload, mimes, oneshot, l)).1;
    var b := BarriersOf(l.ps);
    var seats, managers := GlobalsIn(b.first, REGISTRY, IF_SEAT), GlobalsIn(b.first, REGISTRY, IF_MANAGER);
    var boot, own := BootRequests(selector, seats, managers), CopyRequests(sel, mimes);
    BootRequestsFit(selector, seats, managers);
    CopyRequestsRead(sel, mimes);
    SentBytesDecode(r);
    MessagesConcat(boot, own);
    OfferedConcat(MessagesOf(boot), MessagesOf(own));
    TakenConcat(MessagesOf(boot), MessagesOf(own));
    NotForSource(boot);
    NothingOffered(MessagesOf(boot));
    NothingTaken(MessagesOf(boot));
    TakingIsRead(sel, mimes);
    assert [] + mimes == mimes && [] + [sel] == [sel];
  }

  lemma {:induction false} NotForSource(reqs: seq<Request>)
    requires forall r | r in reqs :: r.id <= 2
    ensures forall m | m in MessagesOf(reqs) :: m.id <= 2
  {
    hide EncodeArgs;
  }

  // ---- The pasting side ---------------------------------------------------

  function PasteStart(l: Link): Machine<PasteSession> {
    NewMachine(NewPaste(), l.sends, l.recvs)
  }

  /** A paste that is told of these selections and types, with the kernel taking what its waits flush. */
  ghost predicate Pastes(selector: Name, sel: Selection, prefer: Name, w: int, taken: seq<Selection>, offer: U32,
                         types: seq<Name>, l: Link) {
    && Carries(l) && Reaches(selector, sel, l.ps) && offer >= SERVER_ID_MIN
    && BarriersOf(l.ps).rest == Told(taken, offer, types)
    && MatchedPhases(PasteDispatcher(), PasteProgram(selector, sel, prefer, false, Some(w)),
                     map[DISPLAY_ID := Display], CLIENT_ID_MIN, NewPaste(), l.ps)
    && PhasesFlow(PasteDispatcher(), PasteProgram(selector, sel, prefer, false, Some(w)), PasteStart(l))
  }

  /** Types a paste can choose from. */
  predicate Choosable(types: seq<Name>) {
    types != [] && Sendable(types) && [] !in types
  }

  lemma {:induction false} ChoosableIsObtained(types: seq<Name>, prefer: Name, w: int)
    requires Choosable(types)
    ensures Obtainable(types, prefer, false, Some(w))
    ensures ChooseMime(types, prefer) in types && |ChooseMime(types, prefer)| <= MAX_TEXT
  {
    hide ChooseMime;
    ChooseMimeIsStableArgMin(types, prefer, []);
  }

  function PasteRequests(offer: U32, mime: Name): seq<Request> {
    [GetDataDevice(MANAGER, DEVICE, SEAT)] + [Receive(offer, mime)]
  }

  lemma {:induction false} AskedConcat(a: seq<Message>, b: seq<Message>, offer: U32)
    ensures AskedIn(a + b, offer) == AskedIn(a, offer) + AskedIn(b, offer)
    decreases |a|
  {
    hide Text;
    if a == [] {
      assert a + b == b;
    } else {
      assert (a + b)[1..] == a[1..] + b;
      AskedConcat(a[1..], b, offer);
      Assoc(if a[0].id == offer && a[0].opcode == 0 then [Text(a[0])] else [], AskedIn(a[1..], offer),
            AskedIn(b, offer));
    }
  }

  lemma {:induction false} NothingAsked(ms: seq<Message>, offer: U32)
    requires forall m | m in ms :: m.id != offer
    ensures AskedIn(ms, offer) == []
    decreases |ms|
  {
    hide Text;
    if ms != [] {
      assert ms[0] in ms && forall m | m in ms[1..] :: m in ms;
      NothingAsked(ms[1..], offer);
    }
  }

  lemma {:induction false} PasteRequestsRead(offer: U32, mime: Name)
    requires |mime| <= MAX_TEXT && offer >= SERVER_ID_MIN
    ensures AskedIn(MessagesOf(PasteRequests(offer, mime)), offer) == [mime]
    ensures forall r | r in PasteRequests(offer, mime) :: Fits(MessageOf(r))
  {
    hide Fits, EncodeArgs, Text;
    var head, last := [GetDataDevice(MANAGER, DEVICE, SEAT)], [Receive(offer, mime)];
    WordsFit(head[0]);
    OfferMessageIsRead(offer, 0, mime);
    MessagesConcat(head, last);
    AskedConcat(MessagesOf(head), MessagesOf(last), offer);
    NothingAsked(MessagesOf(head), offer);
    var ms := MessagesOf(last);
    assert ms[1..] == [] && AskedIn(ms, offer) == [mime] + AskedIn([], offer);
    assert [] + [mime] == [mime];
  }

  /** The wait for the selection, from the end of bootstrap: it ends with the relayed offer current. */
  lemma {:induction false} OfferIsCurrent(selector: Name, sel: Selection, offer: U32, types: seq<Name>, objects: Table,
                                          st: PasteSession)
    requires BootedTable(objects) && st.ext == NewPaste().ext && Sendable(types) && offer >= SERVER_ID_MIN
    requires NameMatches(selector, st.seatName) && (sel.Primary? ==> st.managerVersion >= 2)
    ensures var t := FoldPhase(PasteDispatcher(), PastePhase(selector, sel), objects, DEVICE, st,
                               Announcement(sel, offer, types));
            && t.status.Completed? && Current(sel, t.st.ext) == offer && offer != 0
            && FindOffer(t.st.ext.offers, offer) == Some(OfferRec(offer, types))
  {
    hide FoldPhase, Announcement, NameMatches, ApplyAll, FindOffer, SelectedTypes, Sendable, LawfulTrace, EventsOf;
    var ps := Announcement(sel, offer, types);
    var evs := EventsOf(ps);
    AnnouncementEvents(sel, offer, types);
    AnnouncementSelects(sel, offer, types);
    assert FirstTarget(sel, evs) == |types| + 1 by { TargetIsLast(sel, offer, types); }
    WaitStory(selector, sel, objects, st, ps);
    TargetState(sel, st.ext, evs);
  }

  lemma {:induction false} TargetIsLast(sel: Selection, offer: U32, types: seq<Name>)
    requires Sendable(types) && offer >= SERVER_ID_MIN
    ensures FirstTarget(sel, EventsOf(Announcement(sel, offer, types))) == |types| + 1
  {
    hide Announcement, EventsOf, Sendable;
    var evs := EventsOf(Announcement(sel, offer, types));
    AnnouncementEvents(sel, offer, types);
    forall i | 1 <= i < |types| + 1 ensures evs[i].OfferMime? {
      assert evs[(i - 1) + 1] == OfferMime(offer, types[i - 1]);
    }
  }

  /** The pasting client's run: what it lists, what it chose, and its requests. */
  lemma {:induction false} PasteSays(selector: Name, sel: Selection, prefer: Name, w: int, offer: U32,
                                     types: seq<Name>, l: Link)
    requires Pastes(selector, sel, prefer, w, [sel], offer, types, l) && Choosable(types)
    ensures var (status, r) := RunPhases(PasteDispatcher(), PasteProgram(selector, sel, prefer, false, Some(w)),
                                         PasteStart(l));
            var b := BarriersOf(l.ps);
            var seats, managers := GlobalsIn(b.first, REGISTRY, IF_SEAT), GlobalsIn(b.first, REGISTRY, IF_MANAGER);
            var mime := ChooseMime(types, prefer);
            && status.Completed? && r.st.ext.available == types && r.st.ext.mime == mime
            && managers != [] && PickSeat(selector, |seats|).Some?
            && Requests(r.log) == BootRequests(selector, seats, managers) + PasteRequests(offer, mime)
            && Accounted(r)
  {
    hide Faithful, Whole, MatchedPhases, PhasesFlow, RunPhases, FoldPhases, RunPhase, FoldPhase, Bootstrap, BarriersOf,
      BootSpared, GlobalsIn, NameIn, PickSeat, BootRequests, Requests, NameMatches, Sendable, Silent, Light, Accounted,
      FoldUntil, Run, Flows, Announcement, Told, FindOffer, ChooseMime;
    ToldOfOne(sel, offer, types);
    var h, boot, p := PasteDispatcher(), Bootstrap<PasteState>(selector), PastePhase(selector, sel);
    var q, until := ReceivePhase(sel, prefer, false, Some(w)), UntilSelection(selector, sel);
    var m := PasteStart(l);
    var program := PasteProgram(selector, sel, prefer, false, Some(w));
    PasteIsLight(selector, sel, prefer, false, Some(w));
    PasteActsCommon();
    BootstrapStory(h, m.st.ext, selector, l.ps);
    var s := FoldPhases(h, boot, m.objects, m.nextId, m.st, l.ps);
    StoriesConcat(h, boot, [p], m.objects, m.nextId, m.st, l.ps);
    OneStory(h, p, s.objects, s.nextId, s.st, s.rest);
    OfferIsCurrent(selector, sel, offer, types, s.objects, s.st);
    var t := FoldPhase(h, p, s.objects, s.nextId, s.st, s.rest);
    PhaseRequests(h, p, s.objects, s.nextId, s.st, s.rest);
    RequestsConcat(s.log, t.log);
    assert program == until + [q];
    LastPhase(h, until, q, m, l.ps);
    var u := FoldPhases(h, until, m.objects, m.nextId, m.st, l.ps);
    ChoosableIsObtained(types, prefer, w);
    ReceiveStory(sel, prefer, false, Some(w), u.objects, u.nextId, u.st, u.rest);
    PhaseRequests(h, q, u.objects, u.nextId, u.st, u.rest);
    var v := FoldPhase(h, q, u.objects, u.nextId, u.st, u.rest);
    RequestsConcat(u.log, v.log);
    var r := RunPhases(h, program, m).1;
    assert r.log[|m.log|..] == r.log;
    Assoc(Requests(s.log), [GetDataDevice(MANAGER, DEVICE, SEAT)], [Receive(offer, ChooseMime(types, prefer))]);
    StartAccounted(m);
    PhasesAccount(h, program, m);
  }

  /** The compositor reads the request for the chosen type off the bytes it got, once they are out. */
  lemma {:induction false} PasteIsRead(selector: Name, sel: Selection, prefer: Name, w: int, offer: U32,
                                       types: seq<Name>, l: Link)
    requires Pastes(selector, sel, prefer, w, [sel], offer, types, l) && Choosable(types)
    requires RunPhases(PasteDispatcher(), PasteProgram(selector, sel, prefer, false, Some(w)),
                       PasteStart(l)).1.q.outBuf == []
    ensures var r := RunPhases(PasteDispatcher(), PasteProgram(selector, sel, prefer, false, Some(w)), PasteStart(l)).1;
            AskedIn(ParseAll(BatchBytes(r.shipped)).0, offer) == [ChooseMime(types, prefer)]
  {
    hide RunPhases, Carries, MatchedPhases, PhasesFlow, Accounted, Requests, BootRequests, PasteRequests, ParseAll,
      Fits, Reaches, Choosable, BarriersOf, GlobalsIn, PickSeat, MessageOf, ChooseMime, Told;
    PasteSays(selector, sel, prefer, w, offer, types, l);
    var r := RunPhases(PasteDispatcher(), PasteProgram(selector, sel, prefer, false, Some(w)), PasteStart(l)).1;
    var b := BarriersOf(l.ps);
    var seats, managers := GlobalsIn(b.first, REGISTRY, IF_SEAT), GlobalsIn(b.first, REGISTRY, IF_MANAGER);
    var boot, own := BootRequests(selector, seats, managers), PasteRequests(offer, ChooseMime(types, prefer));
    BootRequestsFit(selector, seats, managers);
    ChoosableIsObtained(types, prefer, w);
    PasteRequestsRead(offer, ChooseMime(types, prefer));
    SentBytesDecode(r);
    MessagesConcat(boot, own);
    AskedConcat(MessagesOf(boot), MessagesOf(own), offer);
    NotForSource(boot);
    NothingAsked(MessagesOf(boot), offer);
    assert [] + [ChooseMime(types, prefer)] == [ChooseMime(types, prefer)];
  }

  // ---- Both together ------------------------------------------------------

  /** A copy whose compositor passes one request on answers it, on its descriptor. */
  lemma {:induction false} CopyAnswers(selector: Name, sel: Selection, payload: seq<Byte>, mimes: seq<Name>,
                                       oneshot: bool, l: Link, asked: Name, fd: int)
    requires Copies(selector, sel, payload, mimes, oneshot, l) && fd >= 0
    requires BarriersOf(l.ps).rest == SendEvents([asked], fd)
    ensures var r := RunPhases(CopyDispatcher(), CopyProgram(selector, sel), CopyStart(payload, mimes, oneshot, l)).1;
            r.st.ext.answered == [fd] && r.st.ext.served == 1
  {
    hide Faithful, Whole, MatchedPhases, PhasesFlow, RunPhases, FoldPhases, RunPhase, Bootstrap, BarriersOf,
      BootSpared, GlobalsIn, NameIn, PickSeat, BootRequests, Requests, NameMatches, Sendable, FoldUntil, SendEvents;
    var h, boot, p := CopyDispatcher(), Bootstrap<CopyState>(selector), CopyPhase(selector, sel);
    var m := CopyStart(payload, mimes, oneshot, l);
    CopyActsCommon();
    BootstrapStory(h, m.st.ext, selector, l.ps);
    LastPhase(h, boot, p, m, l.ps);
    var s := FoldPhases(h, boot, m.objects, m.nextId, m.st, l.ps);
    var e := EnterCopy(selector, sel, s.objects, s.nextId, s.st);
    assert CopyRuns.Serving(e.objects, e.st);
    OneSendServed(e.objects, e.st, asked, fd);
  }

  lemma {:induction false} OneSendServed(objects: Table, st: CopySession, asked: Name, fd: int)
    requires CopyRuns.Serving(objects, st) && st.ext.served == 0 && st.ext.answered == [] && st.ext.cancelCount == 0
    requires fd >= 0
    ensures var f := FoldUntil(CopyDispatcher(), CopyDone(), objects, st, SendEvents([asked], fd));
            f.st.ext.answered == [fd] && f.st.ext.served == 1
  {
    hide FoldUntil, CopyRuns.Serving, EncodeArgs, Word;
    var ps := SendEvents([asked], fd);
    assert [asked][1..] == [] && SendEvents([], fd) == [];
    assert ps == [ps[0]] && ps[1..] == [] && ps[..0] == [] && ps[..1] == ps;
    var k := CopyRuns.ServingRun(objects, st, ps);
    assert CopyRuns.SendFds(ps) == [fd] + CopyRuns.SendFds([]);
    assert CopyRuns.Sends(ps) == 1 + CopyRuns.Sends([]);
  }

  /** At end of file, what drain_fd returns is the payload exactly if serve_send, on the answers it saw, wrote it
      all. */
  ghost predicate BytesArrive(payload: seq<Byte>, t: Transfer.World) {
    t.reader.AtEof? ==>
      (Transfer.DrainRun(t.readings) == payload <==>
         Transfer.ServeRun(Transfer.Producer(payload, Transfer.Writing), t.writes).status.Finished?)
  }

  /** Over a pipe of this capacity, of whose write end the reader's process may hold a copy: the end of the file can
      come, and whenever it does, the bytes have arrived. */
  ghost predicate Arrives(payload: seq<Byte>, held: bool, capacity: nat)
    requires capacity > 0
  {
    && (forall turns :: BytesArrive(payload, Transfer.TakeAll(Transfer.Start(payload, held), capacity, turns)))
    && (exists turns :: Transfer.TakeAll(Transfer.Start(payload, held), capacity, turns).reader.AtEof?)
  }

  lemma {:induction false} TransferArrives(payload: seq<Byte>, capacity: nat)
    requires capacity > 0
    ensures Arrives(payload, false, capacity)
  {
    hide Transfer.TakeAll, Transfer.DrainRun, Transfer.ServeRun, Transfer.Sound;
    var start := Transfer.Start(payload, false);
    forall turns ensures BytesArrive(payload, Transfer.TakeAll(start, capacity, turns)) {
      if Transfer.TakeAll(start, capacity, turns).reader.AtEof? {
        Transfer.DrainFdReturnsPayload(payload, capacity, false, turns);
      }
    }
    Transfer.StartSound(payload, capacity, false);
    var turns := Transfer.CanAlwaysDeliver(payload, capacity, start);
    assert Transfer.TakeAll(start, capacity, turns).reader.AtEof?;
  }

  /** Copy then paste. Let a compositor read the copying client's bytes, tell the pasting client of the selection and
      the types it finds there, and pass the type it finds in that client's bytes on to the copying one with a
      descriptor. Then, whatever the chunks and partial sends on both connections: the paste completes, it lists
      exactly the types of the copy, in order, and asks for the preferred one; the copy is asked for that very type
      and answers on that descriptor; and over any pipe some scheduling lets the paste see the end of the file, and
      any that does hands it exactly the payload, if serve_send wrote it all. */
  lemma {:induction false} CopyThenPasteRelayed(copySeat: Name, pasteSeat: Name, sel: Selection, payload: seq<Byte>,
                                                mimes: seq<Name>, prefer: Name, oneshot: bool, offer: U32, w: int,
                                                fd: int, c: Link, p: Link)
    requires Copies(copySeat, sel, payload, mimes, oneshot, c) && [] !in mimes && fd >= 0
    requires var copied := RunPhases(CopyDispatcher(), CopyProgram(copySeat, sel),
                                     CopyStart(payload, mimes, oneshot, c)).1;
             var said := ParseAll(BatchBytes(copied.shipped)).0;
             Pastes(pasteSeat, sel, prefer, w, TakenIn(said), offer, OfferedIn(said), p)
    requires var pasted := RunPhases(PasteDispatcher(), PasteProgram(pasteSeat, sel, prefer, false, Some(w)),
                                     PasteStart(p)).1;
             && pasted.q.outBuf == []
             && BarriersOf(c.ps).rest == SendEvents(AskedIn(ParseAll(BatchBytes(pasted.shipped)).0, offer), fd)
    ensures var copied := RunPhases(CopyDispatcher(), CopyProgram(copySeat, sel),
                                    CopyStart(payload, mimes, oneshot, c)).1;
            var (status, pasted) := RunPhases(PasteDispatcher(), PasteProgram(pasteSeat, sel, prefer, false, Some(w)),
                                              PasteStart(p));
            && status.Completed? && pasted.st.ext.available == mimes && pasted.st.ext.mime == ChooseMime(mimes, prefer)
            && AskedIn(ParseAll(BatchBytes(pasted.shipped)).0, offer) == [ChooseMime(mimes, prefer)]
            && copied.st.ext.served == 1 && copied.st.ext.answered == [fd]
    ensures var pasted := RunPhases(PasteDispatcher(), PasteProgram(pasteSeat, sel, prefer, false, Some(w)),
                                    PasteStart(p)).1;
            forall capacity: nat :: capacity > 0 ==> Arrives(payload, w in pasted.q.outFds, capacity)
  {
    hide RunPhases, ParseAll, BatchBytes, Carries, Reaches, MatchedPhases, PhasesFlow, BarriersOf, Told,
      SendEvents, ChooseMime, Transfer.TakeAll, Arrives;
    CopyIsRead(copySeat, sel, payload, mimes, oneshot, c);
    PasteSays(pasteSeat, sel, prefer, w, offer, mimes, p);
    PasteIsRead(pasteSeat, sel, prefer, w, offer, mimes, p);
    CopyAnswers(copySeat, sel, payload, mimes, oneshot, c, ChooseMime(mimes, prefer), fd);
    WriteEndKeptIff(pasteSeat, sel, prefer, w, p.sends, p.recvs);
    forall capacity: nat | capacity > 0 ensures Arrives(payload, false, capacity) {
      TransferArrives(payload, capacity);
    }
  }
}
