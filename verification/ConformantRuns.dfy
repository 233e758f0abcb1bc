/** When whole copy and paste runs are first to break one of the judged rules. */
module ConformantRuns {
  import opened Bytes
  import opened Wire
  import opened Connections
  import opened Dispatching
  import opened Clients
  import opened Phases
  import opened Mime
  import opened Handcrafted
  import opened Compositor
  import opened Conformance

  // ---- Entering a phase ---------------------------------------------------

  /** Entering a phase from a state both sides agree on: the requests are admitted and both agree again. */
  ghost predicate EntryAgrees<X>(e: Entry<Session<X>>, offers: seq<OfferRec>, p: Peer) {
    e.Entered? ==>
      var v := Judge(Fair(p), QueuedItems(e.reqs));
      v.Fair? && Agree(e.objects, e.nextId, e.st, offers, v.peer)
  }

  lemma {:induction false} RegistryEntryAgrees<X>(objects: Table, nextId: U32, st: Session<X>, offers: seq<OfferRec>,
                                                  p: Peer)
    requires Agree(objects, nextId, st, offers, p) && nextId < 90
    ensures EntryAgrees(EnterRegistry(objects, nextId, st), offers, p)
  {
    hide Agree, JudgeItem, Judge, KindAgrees;
    var p1 := Created(p, SRegistry);
    var p2 := Created(p1, SCallback);
    var reqs := [GetRegistry(nextId), Sync(Next(nextId))];
    assert reqs[1..] == [Sync(Next(nextId))] && reqs[1..][1..] == [];
    assert IdsApart(p, nextId) by { AgreeIds(objects, nextId, st, offers, p); }
    GetRegistryJudged(p);
    SyncJudged(p1);
    JudgeQueued(Fair(p), reqs);
    JudgeQueued(Fair(p1), reqs[1..]);
    JudgeNothing(Fair(p2));
    assert KindAgrees(Registry, nextId, p1) by { FreshKindAgrees(Registry, nextId, p1); }
    assert KindAgrees(Callback, Next(nextId), p2) by { FreshKindAgrees(Callback, Next(nextId), p2); }
    CreateKeepsAgree(objects, nextId, st, offers, p, Registry, SRegistry);
    CreateKeepsAgree(objects[nextId := Registry], Next(nextId), st, offers, p1, Callback, SCallback);
    var e := EnterRegistry(objects, nextId, st);
    SessionChange(e.objects, e.nextId, st, e.st, offers, p2);
  }

  lemma {:induction false} AgreeIds<X>(objects: Table, nextId: U32, st: Session<X>, offers: seq<OfferRec>, p: Peer)
    requires Agree(objects, nextId, st, offers, p)
    ensures IdsApart(p, nextId) && SessionAgrees(st, p)
  {
  }

  lemma {:induction false} FreshKindAgrees(kind: ObjKind, id: U32, p: Peer)
    requires kind == Registry ==> id in p.objs && p.objs[id].SRegistry?
    requires kind == Device ==> id in p.objs && p.objs[id].SDevice?
    requires kind != Offer
    ensures KindAgrees(kind, id, p)
  {
  }

  lemma {:induction false} JudgeNothing(v: Verdict)
    ensures Judge(v, QueuedItems([])) == v
  {
  }

  /** A change of session that the compositor's memory still supports keeps the agreement. */
  lemma {:induction false} SessionChange<X>(objects: Table, nextId: U32, st: Session<X>, st': Session<X>,
                                            offers: seq<OfferRec>, p: Peer)
    requires Agree(objects, nextId, st, offers, p)
    requires st'.g.seats == st.g.seats && st'.g.managers == st.g.managers
    requires st'.g.registryId == st.g.registryId || Is(p, st'.g.registryId, SRegistry)
    requires st'.seatId == st.seatId || Is(p, st'.seatId, SSeat)
    requires (st'.managerId == st.managerId && st'.managerVersion == st.managerVersion)
          || Is(p, st'.managerId, SManager(st'.managerVersion))
    ensures Agree(objects, nextId, st', offers, p)
  {
    hide IdsApart, KindAgrees;
  }

  /** The seat or the manager that bootstrap is about to bind was withdrawn after it was advertised. */
  predicate BindsWithdrawn<X>(selector: Name, st: Session<X>, p: Peer) {
    && PickSeat(selector, |st.g.seats|).Some? && st.g.managers != []
    && (st.g.seats[PickSeat(selector, |st.g.seats|).value].name in p.withdrawn || st.g.managers[0].name in p.withdrawn)
  }

  lemma {:induction false} BindEntryAgrees<X>(selector: Name, objects: Table, nextId: U32, st: Session<X>,
                                              offers: seq<OfferRec>, p: Peer)
    requires Agree(objects, nextId, st, offers, p) && nextId < 90 && st.g.registryId != 0
    requires !BindsWithdrawn(selector, st, p)
    ensures EntryAgrees(EnterBind(selector, objects, nextId, st), offers, p)
  {
    hide Agree, JudgeItem, Judge, KindAgrees, PickSeat, IF_SEAT, IF_MANAGER;
    var e := EnterBind(selector, objects, nextId, st);
    if e.Entered? {
      AgreeIds(objects, nextId, st, offers, p);
      var sg, mg := st.g.seats[PickSeat(selector, |st.g.seats|).value], st.g.managers[0];
      assert Advert(sg, IF_SEAT) in p.adverts && Advert(mg, IF_MANAGER) in p.adverts;
      assert Advert(sg, IF_SEAT).global.version >= 1 && Advert(mg, IF_MANAGER).global.version >= 1;
      var version := Min(mg.version, 2);
      var p1 := Created(p, SSeat);
      var p2 := Created(p1, SManager(version));
      var p3 := Created(p2, SCallback);
      BindJudged(p, st.g.registryId, sg, IF_SEAT, Min(sg.version, 7), SSeat);
      BindJudged(p1, st.g.registryId, mg, IF_MANAGER, version, SManager(version));
      SyncJudged(p2);
      ThreeJudged(p, p1, p2, p3, e.reqs);
      BoundTablesAgree(objects, nextId, st, offers, p, version);
      SessionChange(e.objects, e.nextId, st, e.st, offers, p3);
    }
  }

  lemma {:induction false} BoundTablesAgree<X>(objects: Table, nextId: U32, st: Session<X>, offers: seq<OfferRec>,
                                               p: Peer, version: U32)
    requires Agree(objects, nextId, st, offers, p) && nextId < 90
    ensures var p2 := Created(Created(p, SSeat), SManager(version));
            var p3 := Created(p2, SCallback);
            && Agree(objects[nextId := Seat][Next(nextId) := Manager][Next(Next(nextId)) := Callback],
                     Next(Next(Next(nextId))), st, offers, p3)
            && Is(p3, nextId, SSeat) && Is(p3, Next(nextId), SManager(version))
  {
    hide Agree, KindAgrees;
    AgreeIds(objects, nextId, st, offers, p);
    var p1 := Created(p, SSeat);
    var p2 := Created(p1, SManager(version));
    var p3 := Created(p2, SCallback);
    FreshKindAgrees(Seat, nextId, p1);
    FreshKindAgrees(Manager, Next(nextId), p2);
    FreshKindAgrees(Callback, Next(Next(nextId)), p3);
    CreateKeepsAgree(objects, nextId, st, offers, p, Seat, SSeat);
    CreateKeepsAgree(objects[nextId := Seat], Next(nextId), st, offers, p1, Manager, SManager(version));
    CreateKeepsAgree(objects[nextId := Seat][Next(nextId) := Manager], Next(Next(nextId)), st, offers, p2, Callback,
                     SCallback);
  }

  /** Binding what was withdrawn is the client's fault. */
  lemma {:induction false} BindEntryBlamed<X>(selector: Name, objects: Table, nextId: U32, st: Session<X>,
                                              offers: seq<OfferRec>, p: Peer)
    requires Agree(objects, nextId, st, offers, p) && nextId < 90 && st.g.registryId != 0
    requires EnterBind(selector, objects, nextId, st).Entered? && BindsWithdrawn(selector, st, p)
    ensures Judge(Fair(p), QueuedItems(EnterBind(selector, objects, nextId, st).reqs)) == ClientAtFault
  {
    hide Agree, JudgeItem, Judge, KindAgrees, PickSeat, Ascii;
    assert |IF_SEAT| == 7 && |IF_MANAGER| == 28;
    AgreeIds(objects, nextId, st, offers, p);
    var reqs := EnterBind(selector, objects, nextId, st).reqs;
    var sg, mg := st.g.seats[PickSeat(selector, |st.g.seats|).value], st.g.managers[0];
    JudgeQueued(Fair(p), reqs);
    if sg.name in p.withdrawn {
      WithdrawnBindJudged(p, st.g.registryId, sg, IF_SEAT, Min(sg.version, 7), nextId);
      JudgeAfterFault(ClientAtFault, QueuedItems(reqs[1..]));
    } else {
      assert Advert(sg, IF_SEAT) in p.adverts;
      assert Advert(sg, IF_SEAT).global.version >= 1;
      var p1 := Created(p, SSeat);
      BindJudged(p, st.g.registryId, sg, IF_SEAT, Min(sg.version, 7), SSeat);
      WithdrawnBindJudged(p1, st.g.registryId, mg, IF_MANAGER, Min(mg.version, 2), Next(nextId));
      JudgeQueued(Fair(p1), reqs[1..]);
      JudgeAfterFault(ClientAtFault, QueuedItems(reqs[1..][1..]));
    }
  }

  lemma {:induction false} ThreeJudged(p: Peer, p1: Peer, p2: Peer, p3: Peer, reqs: seq<Request>)
    requires |reqs| == 3
    requires JudgeItem(Fair(p), Queued(reqs[0])) == Fair(p1)
    requires JudgeItem(Fair(p1), Queued(reqs[1])) == Fair(p2)
    requires JudgeItem(Fair(p2), Queued(reqs[2])) == Fair(p3)
    ensures Judge(Fair(p), QueuedItems(reqs)) == Fair(p3)
  {
    hide JudgeItem, Judge;
    assert reqs[1..] == [reqs[1], reqs[2]] && reqs[1..][1..] == [reqs[2]] && reqs[1..][1..][1..] == [];
    JudgeQueued(Fair(p), reqs);
    JudgeQueued(Fair(p1), reqs[1..]);
    JudgeQueued(Fair(p2), reqs[1..][1..]);
    JudgeNothing(Fair(p3));
  }

  /** Entering the copy phase: every request is in order, exactly when every type fits its offer. */
  lemma {:induction false} CopyEntryJudged(selector: Name, sel: Selection, objects: Table, nextId: U32,
                                           st: CopySession, p: Peer)
    returns (p2: Peer)
    requires Agree(objects, nextId, st, [], p) && nextId < 90 && st.seatId != 0 && st.managerId != 0
    requires EnterCopy(selector, sel, objects, nextId, st).Entered?
    ensures var e := EnterCopy(selector, sel, objects, nextId, st);
            && Judge(Fair(p), QueuedItems(e.reqs))
               == (if Sendable(st.ext.mimes) then Fair(Takes(p2, Next(nextId), sel, nextId)) else ClientAtFault)
            && Agree(e.objects, e.nextId, e.st, [], p2) && Is(p2, nextId, SSource(false))
            && Is(p2, Next(nextId), SDevice(st.managerVersion)) && p2.offers == p.offers && p2.taken == p.taken
  {
    hide Agree, JudgeItem, Judge, KindAgrees, NameMatches, Sendable;
    var e := EnterCopy(selector, sel, objects, nextId, st);
    AgreeIds(objects, nextId, st, [], p);
    var source, device := nextId, Next(nextId);
    var p1 := Created(p, SSource(false));
    p2 := Created(p1, SDevice(st.managerVersion));
    CreateDataSourceJudged(p, st.managerId, st.managerVersion);
    GetDataDeviceJudged(p1, st.managerId, st.managerVersion, st.seatId);
    SourceOffersJudged(p2, source, st.ext.mimes);
    SetSelectionJudged(p2, device, st.managerVersion, sel, source);
    FreshKindAgrees(Source, nextId, p1);
    FreshKindAgrees(Device, Next(nextId), p2);
    CreateKeepsAgree(objects, nextId, st, [], p, Source, SSource(false));
    CreateKeepsAgree(objects[nextId := Source], Next(nextId), st, [], p1, Device, SDevice(st.managerVersion));
    SessionChange(e.objects, e.nextId, st, e.st, [], p2);
    CopyRequestsJudged(p, p1, p2,
                       [CreateDataSource(st.managerId, source), GetDataDevice(st.managerId, device, st.seatId)],
                       SourceOffers(source, st.ext.mimes), SetSelection(device, sel, source));
    JudgeOne(ClientAtFault, Queued(SetSelection(device, sel, source)));
    JudgeAfterFault(ClientAtFault, [Queued(SetSelection(device, sel, source))]);
  }

  lemma {:induction false} CopyEntryAgrees(selector: Name, sel: Selection, objects: Table, nextId: U32,
                                           st: CopySession, p: Peer)
    requires Agree(objects, nextId, st, [], p) && nextId < 90 && st.seatId != 0 && st.managerId != 0
    requires Sendable(st.ext.mimes)
    ensures EntryAgrees(EnterCopy(selector, sel, objects, nextId, st), [], p)
  {
    hide Agree, Judge, EnterCopy;
    var e := EnterCopy(selector, sel, objects, nextId, st);
    if e.Entered? {
      var p2 := CopyEntryJudged(selector, sel, objects, nextId, st, p);
      SourceUsed(e.objects, e.nextId, e.st, p2, Next(nextId), sel, nextId);
    }
  }

  lemma {:induction false} CopyRequestsJudged(p: Peer, p1: Peer, p2: Peer, head: seq<Request>, offers: seq<Request>,
                                              last: Request)
    requires |head| == 2
    requires JudgeItem(Fair(p), Queued(head[0])) == Fair(p1)
    requires JudgeItem(Fair(p1), Queued(head[1])) == Fair(p2)
    ensures Judge(Fair(p), QueuedItems(head + offers + [last]))
         == JudgeItem(Judge(Fair(p2), QueuedItems(offers)), Queued(last))
  {
    hide JudgeItem, Judge;
    assert head[1..] == [head[1]] && head[1..][1..] == [];
    JudgeQueued(Fair(p), head);
    JudgeQueued(Fair(p1), head[1..]);
    JudgeNothing(Fair(p2));
    assert QueuedItems(head + offers + [last]) == QueuedItems(head) + QueuedItems(offers) + QueuedItems([last]);
    JudgeConcat(Fair(p), QueuedItems(head) + QueuedItems(offers), QueuedItems([last]));
    JudgeConcat(Fair(p), QueuedItems(head), QueuedItems(offers));
    assert QueuedItems([last]) == [Queued(last)];
    JudgeOne(Judge(Fair(p2), QueuedItems(offers)), Queued(last));
  }

  lemma {:induction false} SourceUsed<X>(objects: Table, nextId: U32, st: Session<X>, p: Peer, device: U32,
                                         sel: Selection, source: U32)
    requires Agree(objects, nextId, st, [], p) && Is(p, source, SSource(false))
    ensures Agree(objects, nextId, st, [], Takes(p, device, sel, source))
  {
  }

  lemma {:induction false} PasteEntryAgrees(selector: Name, sel: Selection, objects: Table, nextId: U32,
                                            st: PasteSession, p: Peer)
    requires Agree(objects, nextId, st, st.ext.offers, p) && nextId < 90 && st.seatId != 0 && st.managerId != 0
    ensures EntryAgrees(EnterPaste(selector, sel, objects, nextId, st), st.ext.offers, p)
  {
    hide Agree, JudgeItem, Judge, KindAgrees, NameMatches;
    var e := EnterPaste(selector, sel, objects, nextId, st);
    if e.Entered? {
      AgreeIds(objects, nextId, st, st.ext.offers, p);
      var p1 := Created(p, SDevice(st.managerVersion));
      GetDataDeviceJudged(p, st.managerId, st.managerVersion, st.seatId);
      FreshKindAgrees(Device, nextId, p1);
      CreateKeepsAgree(objects, nextId, st, st.ext.offers, p, Device, SDevice(st.managerVersion));
      SessionChange(e.objects, e.nextId, st, e.st, st.ext.offers, p1);
      assert e.reqs[1..] == [];
      JudgeQueued(Fair(p), e.reqs);
      JudgeNothing(Fair(p1));
    }
  }

  lemma {:induction false} FoundOfferIsListed(offers: seq<OfferRec>, id: U32)
    ensures FindOffer(offers, id).Some? ==>
            FindOffer(offers, id).value in offers && FindOffer(offers, id).value.id == id
  {
    if offers != [] && offers[0].id != id {
      FoundOfferIsListed(offers[1..], id);
    }
  }

  lemma {:induction false} ReceiveEntryAgrees(sel: Selection, prefer: Name, listOnly: bool, pipe: Option<int>,
                                              objects: Table, nextId: U32, st: PasteSession, p: Peer)
    requires Agree(objects, nextId, st, st.ext.offers, p)
    ensures EntryAgrees(EnterReceive(sel, prefer, listOnly, pipe, objects, nextId, st), st.ext.offers, p)
  {
    hide JudgeItem, Judge, KindAgrees, ChooseMime, FindOffer;
    var e := EnterReceive(sel, prefer, listOnly, pipe, objects, nextId, st);
    if e.Entered? {
      SessionChange(objects, nextId, st, e.st, st.ext.offers, p);
      JudgeNothing(Fair(p));
      if e.reqs != [] {
        var id := Current(sel, st.ext);
        FoundOfferIsListed(st.ext.offers, id);
        var rec := FindOffer(st.ext.offers, id).value;
        assert Announced(p, rec);
        var mime := ChooseMime(rec.mimes, prefer);
        ChooseFromNonempty(rec.mimes, prefer);
        ReceiveJudged(p, nextId, id, mime);
        JudgeQueued(Fair(p), e.reqs);
        assert e.reqs[1..] == [];
      }
    }
  }

  lemma {:induction false} ChooseFromNonempty(mimes: seq<Name>, prefer: Name)
    ensures ChooseMime(mimes, prefer) != [] ==> ChooseMime(mimes, prefer) in mimes
  {
    if mimes != [] {
      ChooseMimeIsStableArgMin(mimes, prefer, []);
    }
  }

  // ---- Whole runs ---------------------------------------------------------

  /** The parts of a state the argument needs: the offers it recorded and the types it will advertise. */
  datatype Lens<!X> = Lens(offers: X -> seq<OfferRec>, mimes: X -> seq<Name>)

  /** Conformance so far, with the identity of registry, seat and manager as they were in st0. */
  ghost predicate Inv<X>(lens: Lens<X>, nextId: U32, st0: Session<X>, objects: Table, st: Session<X>,
                         log: seq<LogItem>) {
    && Conforms(objects, nextId, st, lens.offers(st.ext), log)
    && lens.mimes(st.ext) == lens.mimes(st0.ext)
    && st.g.registryId == st0.g.registryId && st.seatId == st0.seatId && st.managerId == st0.managerId
  }

  ghost function InvFor<X>(lens: Lens<X>, nextId: U32, st0: Session<X>): (Table, Session<X>, seq<LogItem>) -> bool {
    (o: Table, s: Session<X>, l: seq<LogItem>) => Inv(lens, nextId, st0, o, s, l)
  }

  lemma {:induction false} EventJudged(log: seq<LogItem>, m: Message, fd: int)
    ensures Judge(Fair(NEW_PEER), log + [Event(m, fd)] + QueuedItems([]))
         == JudgeItem(Judge(Fair(NEW_PEER), log), Event(m, fd))
  {
    hide Judge, JudgeItem;
    assert log + [Event(m, fd)] + QueuedItems([]) == log + [Event(m, fd)];
    JudgeConcat(Fair(NEW_PEER), log, [Event(m, fd)]);
    JudgeOne(Judge(Fair(NEW_PEER), log), Event(m, fd));
  }

  function CopyLens(): Lens<CopyState> {
    Lens((x: CopyState) => [], (x: CopyState) => x.mimes)
  }

  function PasteLens(): Lens<PasteState> {
    Lens((x: PasteState) => x.offers, (x: PasteState) => [])
  }

  lemma {:induction false} CopyKeepsInv(nextId: U32, st0: CopySession, objects: Table, st: CopySession,
                                        log: seq<LogItem>, msg: Message, fd: int)
    requires Inv(CopyLens(), nextId, st0, objects, st, log) && Fits(msg)
    ensures var e := CopyHandle(objects, st, msg, fd);
            && e.replies == []
            && Inv(CopyLens(), nextId, st0, e.objects, e.st, log + [Event(msg, fd)] + QueuedItems([]))
  {
    hide Judge, Agree, JudgeEvent, CopyHandle;
    EventJudged(log, msg, fd);
    var v := Judge(Fair(NEW_PEER), log);
    EventBlamesCompositor(v, msg, fd);
    if v.Fair? && JudgeEvent(v.peer, msg).Fair? {
      CopyKeepsAgree(objects, nextId, st, v.peer, msg, fd);
    }
    CopyKeepsIds(objects, st, msg, fd);
  }

  lemma {:induction false} CopyPreserves(nextId: U32, st0: CopySession)
    ensures Preserved(CopyDispatcher(), InvFor(CopyLens(), nextId, st0))
  {
    hide Inv, CopyHandle;
    var h, inv := CopyDispatcher(), InvFor(CopyLens(), nextId, st0);
    forall objects: Table, st: CopySession, log: seq<LogItem>, msg: Message, fd: int
      | inv(objects, st, log) && Fits(msg)
      ensures InvAfter(h, inv, objects, st, log, msg, fd)
    {
      CopyKeepsInv(nextId, st0, objects, st, log, msg, fd);
      assert h.handle(objects, st, msg, fd) == CopyHandle(objects, st, msg, fd);
    }
  }

  lemma {:induction false} EventBlamesCompositor(v: Verdict, m: Message, fd: int)
    ensures !v.ClientAtFault? ==> !JudgeItem(v, Event(m, fd)).ClientAtFault?
    ensures v.Fair? ==> JudgeItem(v, Event(m, fd)) == JudgeEvent(v.peer, m)
    ensures v.CompositorAtFault? ==> JudgeItem(v, Event(m, fd)) == v
  {
    hide AdvertOf, Word, Text;
  }

  lemma {:induction false} CopyKeepsIds(objects: Table, st: CopySession, m: Message, fd: int)
    ensures var e := CopyHandle(objects, st, m, fd);
            && e.replies == [] && e.st.ext.mimes == st.ext.mimes
            && e.st.g.registryId == st.g.registryId && e.st.seatId == st.seatId && e.st.managerId == st.managerId
  {
    hide AdvertOf, Word, Text;
  }

  lemma {:induction false} PasteKeepsIds(objects: Table, st: PasteSession, m: Message, fd: int)
    ensures var e := PasteHandle(objects, st, m, fd);
            && e.replies == []
            && e.st.g.registryId == st.g.registryId && e.st.seatId == st.seatId && e.st.managerId == st.managerId
  {
    hide AdvertOf, Word, Text;
  }

  lemma {:induction false} PasteKeepsInv(nextId: U32, st0: PasteSession, objects: Table, st: PasteSession,
                                         log: seq<LogItem>, msg: Message, fd: int)
    requires Inv(PasteLens(), nextId, st0, objects, st, log) && Fits(msg)
    ensures var e := PasteHandle(objects, st, msg, fd);
            && e.replies == []
            && Inv(PasteLens(), nextId, st0, e.objects, e.st, log + [Event(msg, fd)] + QueuedItems([]))
  {
    hide Judge, Agree, JudgeEvent, PasteHandle;
    EventJudged(log, msg, fd);
    var v := Judge(Fair(NEW_PEER), log);
    EventBlamesCompositor(v, msg, fd);
    if v.Fair? && JudgeEvent(v.peer, msg).Fair? {
      PasteKeepsAgree(objects, nextId, st, v.peer, msg, fd);
    }
    PasteKeepsIds(objects, st, msg, fd);
  }

  lemma {:induction false} PastePreserves(nextId: U32, st0: PasteSession)
    ensures Preserved(PasteDispatcher(), InvFor(PasteLens(), nextId, st0))
  {
    hide Inv, PasteHandle;
    var h, inv := PasteDispatcher(), InvFor(PasteLens(), nextId, st0);
    forall objects: Table, st: PasteSession, log: seq<LogItem>, msg: Message, fd: int
      | inv(objects, st, log) && Fits(msg)
      ensures InvAfter(h, inv, objects, st, log, msg, fd)
    {
      PasteKeepsInv(nextId, st0, objects, st, log, msg, fd);
      assert h.handle(objects, st, msg, fd) == PasteHandle(objects, st, msg, fd);
    }
  }

  /** One phase of a conforming run conforms, and hands a conforming state to the next. */
  lemma {:induction false} PhaseConforms<X(!new)>(h: Handler<Session<X>>, lens: Lens<X>, p: Phase<Session<X>>,
                                                  m: Machine<Session<X>>)
    requires Inv(lens, m.nextId, m.st, m.objects, m.st, m.log)
    requires var e := p.enter(m.objects, m.nextId, m.st);
             e.Entered? ==>
               && Preserved(h, InvFor(lens, e.nextId, e.st))
               && lens.offers(e.st.ext) == lens.offers(m.st.ext)
               && var v := Judge(Fair(NEW_PEER), m.log);
                  v.Fair? ==> EntryAgrees(e, lens.offers(m.st.ext), v.peer)
    ensures var (status, r) := RunPhase(h, p, m);
            var e := p.enter(m.objects, m.nextId, m.st);
            && !Judge(Fair(NEW_PEER), r.log).ClientAtFault?
            && (status.Completed? ==>
                e.Entered? && r.nextId == e.nextId && Inv(lens, e.nextId, e.st, r.objects, r.st, r.log))
  {
    hide Judge, Agree, Preserved, Run, EncodeRequests, FlushRun;
    var e := p.enter(m.objects, m.nextId, m.st);
    if e.Entered? {
      var entered := EnterMachine(m, e);
      JudgeConcat(Fair(NEW_PEER), m.log, QueuedItems(e.reqs));
      if Judge(Fair(NEW_PEER), m.log).CompositorAtFault? {
        JudgeAfterFault(CompositorAtFault, QueuedItems(e.reqs));
      }
      assert entered.log == m.log + QueuedItems(e.reqs);
      var inv := InvFor(lens, e.nextId, e.st);
      assert inv(entered.objects, entered.st, entered.log);
      RunPreserves(h, p.done, inv, entered);
      RunKeepsNextId(h, p.done, entered);
    }
  }

  lemma {:induction false} StartConforms<X>(lens: Lens<X>, st: Session<X>)
    requires lens.offers(st.ext) == [] && st.g == NewSession(st.ext).g && st.seatId == 0 && st.managerId == 0
    ensures Inv(lens, CLIENT_ID_MIN, st, map[DISPLAY_ID := Display], st, [])
  {
  }

  lemma {:induction false} InvParts<X>(lens: Lens<X>, nextId: U32, st0: Session<X>, objects: Table, st: Session<X>,
                                       log: seq<LogItem>)
    requires Inv(lens, nextId, st0, objects, st, log)
    ensures lens.mimes(st.ext) == lens.mimes(st0.ext)
    ensures st.g.registryId == st0.g.registryId && st.seatId == st0.seatId && st.managerId == st0.managerId
    ensures Inv(lens, nextId, st, objects, st, log)
    ensures var v := Judge(Fair(NEW_PEER), log);
            v.Fair? ==> Agree(objects, nextId, st, lens.offers(st.ext), v.peer)
  {
    hide Judge, Agree;
  }

  lemma {:induction false} RegistryPhaseConforms<X(!new)>(h: Handler<Session<X>>, lens: Lens<X>, selector: Name,
                                                          m: Machine<Session<X>>)
    requires Inv(lens, CLIENT_ID_MIN, m.st, m.objects, m.st, m.log) && m.nextId == CLIENT_ID_MIN
    requires forall nextId, st0 {:trigger InvFor(lens, nextId, st0)} :: Preserved(h, InvFor(lens, nextId, st0))
    ensures var (status, r) := RunPhase(h, Bootstrap<X>(selector)[0], m);
            && !Judge(Fair(NEW_PEER), r.log).ClientAtFault?
            && (status.Completed? ==>
                  && r.nextId == 4 && r.st.g.registryId == 2 && lens.mimes(r.st.ext) == lens.mimes(m.st.ext)
                  && Inv(lens, r.nextId, r.st, r.objects, r.st, r.log))
  {
    hide Judge, Agree, Preserved, EntryAgrees, RunPhase, Inv, InvFor;
    var p := Bootstrap<X>(selector)[0];
    InvParts(lens, m.nextId, m.st, m.objects, m.st, m.log);
    var v := Judge(Fair(NEW_PEER), m.log);
    if v.Fair? {
      RegistryEntryAgrees(m.objects, m.nextId, m.st, lens.offers(m.st.ext), v.peer);
    }
    var e := EnterRegistry(m.objects, m.nextId, m.st);
    assert p.enter(m.objects, m.nextId, m.st) == e;
    assert Preserved(h, InvFor(lens, e.nextId, e.st));
    PhaseConforms(h, lens, p, m);
    var (status, r) := RunPhase(h, p, m);
    if status.Completed? {
      InvParts(lens, r.nextId, e.st, r.objects, r.st, r.log);
    }
  }

  lemma {:induction false} BindEntryShape<X>(selector: Name, objects: Table, st: Session<X>)
    ensures var e := EnterBind(selector, objects, 4, st);
            e.Entered? ==> e.nextId == 7 && e.st.seatId == 4 && e.st.managerId == 5 && e.st.ext == st.ext
  {
    hide PickSeat;
  }

  /** A phase whose requests are to blame leaves the client to blame. */
  lemma {:induction false} BlameStands<X(!new)>(h: Handler<Session<X>>, p: Phase<Session<X>>, m: Machine<Session<X>>)
    requires var e := p.enter(m.objects, m.nextId, m.st);
             e.Entered? && Judge(Fair(NEW_PEER), m.log + QueuedItems(e.reqs)).ClientAtFault?
    ensures Judge(Fair(NEW_PEER), RunPhase(h, p, m).1.log).ClientAtFault?
  {
    hide Judge, Run, EncodeRequests, FlushRun;
    var e := p.enter(m.objects, m.nextId, m.st);
    var inv := (o: Table, s: Session<X>, l: seq<LogItem>) => Judge(Fair(NEW_PEER), l).ClientAtFault?;
    forall objects: Table, st: Session<X>, log: seq<LogItem>, msg: Message, fd: int
      | inv(objects, st, log) && Fits(msg)
      ensures InvAfter(h, inv, objects, st, log, msg, fd)
    {
      var items := [Event(msg, fd)] + QueuedItems(h.handle(objects, st, msg, fd).replies);
      JudgeConcat(Fair(NEW_PEER), log, items);
      JudgeAfterFault(ClientAtFault, items);
      Assoc(log, [Event(msg, fd)], QueuedItems(h.handle(objects, st, msg, fd).replies));
    }
    var entered := EnterMachine(m, e);
    assert entered.log == m.log + QueuedItems(e.reqs);
    RunPreserves(h, p.done, inv, entered);
  }

  /** Blame, once earned, stays. */
  lemma {:induction false} FaultStands<X(!new)>(h: Handler<Session<X>>, program: seq<Phase<Session<X>>>,
                                                m: Machine<Session<X>>)
    requires Judge(Fair(NEW_PEER), m.log).ClientAtFault?
    ensures Judge(Fair(NEW_PEER), RunPhases(h, program, m).1.log).ClientAtFault?
    decreases |program|
  {
    hide Judge, Run, EnterMachine;
    if program != [] {
      var e := program[0].enter(m.objects, m.nextId, m.st);
      if e.Entered? {
        JudgeConcat(Fair(NEW_PEER), m.log, QueuedItems(e.reqs));
        JudgeAfterFault(ClientAtFault, QueuedItems(e.reqs));
        BlameStands(h, program[0], m);
      } else {
        assert EnterMachine(m, e) == m.(st := e.st) by { RefusedKeepsLog(m, e); }
      }
      FaultStands(h, program[1..], RunPhase(h, program[0], m).1);
    }
  }

  lemma {:induction false} RefusedKeepsLog<S>(m: Machine<S>, e: Entry<S>)
    requires e.Refused?
    ensures EnterMachine(m, e) == m.(st := e.st)
  {
  }

  /** The bind phase is to blame exactly when it binds what a compositor that kept the rules has withdrawn. */
  lemma {:induction false} BindPhaseConforms<X(!new)>(h: Handler<Session<X>>, lens: Lens<X>, selector: Name,
                                                      m: Machine<Session<X>>)
    requires Inv(lens, 4, m.st, m.objects, m.st, m.log) && m.nextId == 4 && m.st.g.registryId != 0
    requires forall nextId, st0 {:trigger InvFor(lens, nextId, st0)} :: Preserved(h, InvFor(lens, nextId, st0))
    ensures var (status, r) := RunPhase(h, Bootstrap<X>(selector)[1], m);
            var v := Judge(Fair(NEW_PEER), m.log);
            && (Judge(Fair(NEW_PEER), r.log).ClientAtFault? <==>
                  EnterBind(selector, m.objects, 4, m.st).Entered? && v.Fair? && BindsWithdrawn(selector, m.st, v.peer))
            && (status.Completed? && !Judge(Fair(NEW_PEER), r.log).ClientAtFault? ==>
                  && r.nextId == 7 && r.st.seatId != 0 && r.st.managerId != 0
                  && lens.mimes(r.st.ext) == lens.mimes(m.st.ext)
                  && Inv(lens, r.nextId, r.st, r.objects, r.st, r.log))
  {
    hide Judge, Agree, Preserved, EntryAgrees, RunPhase, Inv, InvFor, EnterBind, BindsWithdrawn;
    var p := Bootstrap<X>(selector)[1];
    InvParts(lens, m.nextId, m.st, m.objects, m.st, m.log);
    var v := Judge(Fair(NEW_PEER), m.log);
    var e := EnterBind(selector, m.objects, m.nextId, m.st);
    assert p.enter(m.objects, m.nextId, m.st) == e;
    if e.Entered? && v.Fair? && BindsWithdrawn(selector, m.st, v.peer) {
      BindEntryBlamed(selector, m.objects, m.nextId, m.st, lens.offers(m.st.ext), v.peer);
      JudgeConcat(Fair(NEW_PEER), m.log, QueuedItems(e.reqs));
      BlameStands(h, p, m);
    } else {
      if v.Fair? {
        if e.Entered? {
          BindEntryAgrees(selector, m.objects, m.nextId, m.st, lens.offers(m.st.ext), v.peer);
        }
      }
      BindEntryShape(selector, m.objects, m.st);
      if e.Entered? {
        assert Preserved(h, InvFor(lens, e.nextId, e.st));
      }
      PhaseConforms(h, lens, p, m);
      var (status, r) := RunPhase(h, p, m);
      if status.Completed? {
        InvParts(lens, r.nextId, e.st, r.objects, r.st, r.log);
      }
    }
  }

  /** Bootstrap comes to bind a global that a compositor that kept the rules has withdrawn. */
  ghost predicate BoundWithdrawn<X>(h: Handler<Session<X>>, selector: Name, m: Machine<Session<X>>) {
    var (status, b) := RunPhase(h, Bootstrap<X>(selector)[0], m);
    var v := Judge(Fair(NEW_PEER), b.log);
    && status.Completed? && EnterBind(selector, b.objects, b.nextId, b.st).Entered?
    && v.Fair? && BindsWithdrawn(selector, b.st, v.peer)
  }

  /** Bootstrap is first to break a judged rule exactly when it binds a withdrawn global; otherwise, if it completes, it
      has bound a seat and a manager. */
  lemma {:induction false} BootstrapConforms<X(!new)>(h: Handler<Session<X>>, lens: Lens<X>, selector: Name,
                                                      m: Machine<Session<X>>)
    requires Inv(lens, CLIENT_ID_MIN, m.st, m.objects, m.st, m.log) && m.nextId == CLIENT_ID_MIN
    requires forall nextId, st0 {:trigger InvFor(lens, nextId, st0)} :: Preserved(h, InvFor(lens, nextId, st0))
    ensures var (status, r) := RunPhases(h, Bootstrap<X>(selector), m);
            && (Judge(Fair(NEW_PEER), r.log).ClientAtFault? <==> BoundWithdrawn(h, selector, m))
            && (status.Completed? && !BoundWithdrawn(h, selector, m) ==>
                  && r.nextId == 7 && r.st.seatId != 0 && r.st.managerId != 0
                  && lens.mimes(r.st.ext) == lens.mimes(m.st.ext)
                  && Inv(lens, r.nextId, r.st, r.objects, r.st, r.log))
  {
    hide Judge, Inv, RunPhase, EnterBind, BindsWithdrawn;
    var p := Bootstrap<X>(selector);
    assert p == [p[0], p[1]];
    RegistryPhaseConforms(h, lens, selector, m);
    TwoPhases(h, p[0], p[1], m);
    var (status, r) := RunPhase(h, p[0], m);
    if status.Completed? {
      BindPhaseConforms(h, lens, selector, r);
    }
  }

  /** A copy run, whatever the socket and the compositor do, is first to break a judged rule exactly in two cases: its
      bootstrap binds a global that was withdrawn; or it gets to offer its types to a compositor that has kept the
      rules, and one of them does not fit its message. All other runs keep ids dense, use only existing objects, by
      their own interface, offer every type before the one set_selection, and use the primary form only with a device
      of version 2. */
  lemma {:induction false} CopyConformsIff(selector: Name, sel: Selection, bytes: seq<Byte>, mimes: seq<Name>,
                                           oneshot: bool, sends: seq<SendAnswer>, recvs: seq<RecvAnswer>)
    ensures var m := NewMachine(NewCopy(bytes, mimes, oneshot), sends, recvs);
            var (booted, b) := RunPhases(CopyDispatcher(), Bootstrap<CopyState>(selector), m);
            var r := RunPhases(CopyDispatcher(), CopyProgram(selector, sel), m).1;
            && (Judge(Fair(NEW_PEER), r.log).ClientAtFault? <==>
                  || BoundWithdrawn(CopyDispatcher(), selector, m)
                  || (&& booted.Completed? && EnterCopy(selector, sel, b.objects, b.nextId, b.st).Entered?
                      && Judge(Fair(NEW_PEER), b.log).Fair? && !Sendable(mimes)))
            && BatchBytes(r.shipped) + r.q.outBuf == EncodeRequests(Requests(r.log))
  {
    hide Judge, Agree, Preserved, Run, EntryAgrees, EnterCopy, RunPhase, RunPhases, Bootstrap, EncodeRequests,
      NameMatches, Sendable, BoundWithdrawn;
    var h, lens := CopyDispatcher(), CopyLens();
    var m := NewMachine(NewCopy(bytes, mimes, oneshot), sends, recvs);
    forall nextId, st0 ensures Preserved(h, InvFor(lens, nextId, st0)) {
      CopyPreserves(nextId, st0);
    }
    StartConforms(lens, m.st);
    BootstrapConforms(h, lens, selector, m);
    var p := CopyPhase(selector, sel);
    PhasesConcat(h, Bootstrap<CopyState>(selector), [p], m);
    var (status, b) := RunPhases(h, Bootstrap<CopyState>(selector), m);
    if status.Completed? {
      OnePhase(h, p, b);
      if BoundWithdrawn(h, selector, m) {
        FaultStands(h, [p], b);
      } else {
        CopyPhaseBlamed(selector, sel, b);
      }
    }
    StartAccounted(m);
    PhasesAccount(h, CopyProgram(selector, sel), m);
  }

  lemma {:induction false} CopyPhaseBlamed(selector: Name, sel: Selection, b: Machine<CopySession>)
    requires Inv(CopyLens(), 7, b.st, b.objects, b.st, b.log)
    requires b.nextId == 7 && b.st.seatId != 0 && b.st.managerId != 0
    ensures Judge(Fair(NEW_PEER), RunPhase(CopyDispatcher(), CopyPhase(selector, sel), b).1.log).ClientAtFault? <==>
              && EnterCopy(selector, sel, b.objects, b.nextId, b.st).Entered?
              && Judge(Fair(NEW_PEER), b.log).Fair? && !Sendable(b.st.ext.mimes)
  {
    hide Judge, Agree, Preserved, Run, EntryAgrees, EnterCopy, RunPhase, NameMatches, Sendable;
    var p, v := CopyPhase(selector, sel), Judge(Fair(NEW_PEER), b.log);
    var e := EnterCopy(selector, sel, b.objects, b.nextId, b.st);
    if e.Entered? && v.Fair? && !Sendable(b.st.ext.mimes) {
      var _ := CopyEntryJudged(selector, sel, b.objects, b.nextId, b.st, v.peer);
      JudgeConcat(Fair(NEW_PEER), b.log, QueuedItems(e.reqs));
      BlameStands(CopyDispatcher(), p, b);
    } else {
      if e.Entered? && v.Fair? {
        CopyEntryAgrees(selector, sel, b.objects, b.nextId, b.st, v.peer);
      }
      if e.Entered? {
        CopyPreserves(e.nextId, e.st);
        assert CopyLens().offers(e.st.ext) == CopyLens().offers(b.st.ext);
      }
      PhaseConforms(CopyDispatcher(), CopyLens(), p, b);
    }
  }

  lemma {:induction false} StartAccounted<S>(m: Machine<S>)
    requires m.log == [] && m.shipped == [] && m.q.outBuf == []
    ensures Accounted(m)
  {
    assert MessagesOf([]) == [];
  }

  /** A paste run is first to break a judged rule exactly when its bootstrap binds a withdrawn global; moreover
      `receive` is sent only to an announced offer, for a type it announced. */
  lemma {:induction false} PasteConformsIff(selector: Name, sel: Selection, prefer: Name, listOnly: bool,
                                            pipe: Option<int>, sends: seq<SendAnswer>, recvs: seq<RecvAnswer>)
    ensures var m := NewMachine(NewPaste(), sends, recvs);
            var r := RunPhases(PasteDispatcher(), PasteProgram(selector, sel, prefer, listOnly, pipe), m).1;
            && (Judge(Fair(NEW_PEER), r.log).ClientAtFault? <==> BoundWithdrawn(PasteDispatcher(), selector, m))
            && BatchBytes(r.shipped) + r.q.outBuf == EncodeRequests(Requests(r.log))
  {
    hide Judge, Preserved, Run, RunPhase, RunPhases, Bootstrap, EncodeRequests, BoundWithdrawn, Inv, InvFor,
      PastePhase, ReceivePhase;
    var h, lens := PasteDispatcher(), PasteLens();
    var m := NewMachine(NewPaste(), sends, recvs);
    forall nextId, st0 ensures Preserved(h, InvFor(lens, nextId, st0)) {
      PastePreserves(nextId, st0);
    }
    StartConforms(lens, m.st);
    BootstrapConforms(h, lens, selector, m);
    var p, q := PastePhase(selector, sel), ReceivePhase(sel, prefer, listOnly, pipe);
    PhasesConcat(h, Bootstrap<PasteState>(selector), [p, q], m);
    var (status, b) := RunPhases(h, Bootstrap<PasteState>(selector), m);
    if status.Completed? {
      if BoundWithdrawn(h, selector, m) {
        FaultStands(h, [p, q], b);
      } else {
        PastePhasesConform(selector, sel, prefer, listOnly, pipe, b);
      }
    }
    StartAccounted(m);
    PhasesAccount(h, PasteProgram(selector, sel, prefer, listOnly, pipe), m);
  }

  lemma {:induction false} PastePhasesConform(selector: Name, sel: Selection, prefer: Name, listOnly: bool,
                                              pipe: Option<int>, b: Machine<PasteSession>)
    requires Inv(PasteLens(), 7, b.st, b.objects, b.st, b.log)
    requires b.nextId == 7 && b.st.seatId != 0 && b.st.managerId != 0
    ensures var program := [PastePhase(selector, sel), ReceivePhase(sel, prefer, listOnly, pipe)];
            !Judge(Fair(NEW_PEER), RunPhases(PasteDispatcher(), program, b).1.log).ClientAtFault?
  {
    hide Judge, Agree, Preserved, Run, EntryAgrees, RunPhase, RunPhases, NameMatches, FindOffer, ChooseMime;
    var h, lens := PasteDispatcher(), PasteLens();
    var p, q := PastePhase(selector, sel), ReceivePhase(sel, prefer, listOnly, pipe);
    forall nextId, st0 ensures Preserved(h, InvFor(lens, nextId, st0)) {
      PastePreserves(nextId, st0);
    }
    TwoPhases(h, p, q, b);
    var v := Judge(Fair(NEW_PEER), b.log);
    if v.Fair? {
      PasteEntryAgrees(selector, sel, b.objects, b.nextId, b.st, v.peer);
    }
    PhaseConforms(h, lens, p, b);
    var (status, r) := RunPhase(h, p, b);
    if status.Completed? {
      v := Judge(Fair(NEW_PEER), r.log);
      if v.Fair? {
        ReceiveEntryAgrees(sel, prefer, listOnly, pipe, r.objects, r.nextId, r.st, v.peer);
      }
      InvParts(lens, r.nextId, p.enter(b.objects, b.nextId, b.st).st, r.objects, r.st, r.log);
      PhaseConforms(h, lens, q, r);
    }
  }

  /** Once everything is flushed, the bytes that left decode to exactly the requests of the log, in order. */
  lemma {:induction false} SentBytesDecode<S>(m: Machine<S>)
    requires Accounted(m) && m.q.outBuf == []
    requires forall r | r in Requests(m.log) :: Fits(MessageOf(r))
    ensures ParseAll(BatchBytes(m.shipped)) == (MessagesOf(Requests(m.log)), [])
  {
    hide Requests, BatchBytes, EncodeAll, ParseAll, MessageOf;
    var ms := MessagesOf(Requests(m.log));
    ParseAllOfEncodeAll(ms, []);
    assert BatchBytes(m.shipped) + [] == BatchBytes(m.shipped) && EncodeAll(ms) + [] == EncodeAll(ms);
  }
}
