/** copy and paste as they run: in place, on a Client (src/clipboard/handcrafted.cpp). */
module Backend {
  import opened Bytes
  import opened Wire
  import opened Connections
  import opened Dispatching
  import opened Clients
  import opened Phases
  import opened Mime
  import opened Handcrafted
  import Transfer

  // ---- Common requests ----------------------------------------------------

  method SendGetRegistry<X>(cl: Client<Session<X>>)
    modifies cl, cl.conn
    ensures var m := old(cl.Value());
            cl.Value() == Posted(m.(objects := m.objects[m.nextId := Registry], nextId := Next(m.nextId),
                                    st := m.st.(g := m.st.g.(registryId := m.nextId))),
                                 [GetRegistry(m.nextId)], [])
  {
    hide EncodeRequests;
    var registry := cl.AllocId();
    cl.st := cl.st.(g := cl.st.g.(registryId := registry));
    cl.RegisterObject(registry, Registry);
    var w := new Writer(DISPLAY_ID, REQ_GET_REGISTRY);
    w.U32(registry);
    assert w.args == GetRegistry(registry).args;
    cl.Post(w);
  }

  method SendSync<X>(cl: Client<Session<X>>) returns (callback: U32)
    modifies cl, cl.conn
    ensures var m := old(cl.Value());
            && callback == m.nextId
            && cl.Value() == Posted(m.(objects := m.objects[m.nextId := Callback], nextId := Next(m.nextId)),
                                    [Sync(m.nextId)], [])
  {
    hide EncodeRequests;
    callback := cl.AllocId();
    cl.RegisterObject(callback, Callback);
    var w := new Writer(DISPLAY_ID, REQ_SYNC);
    w.U32(callback);
    assert w.args == Sync(callback).args;
    cl.Post(w);
  }

  method SendBind<X>(cl: Client<Session<X>>, registry: U32, name: U32, interface: Name, version: U32, id: U32)
    modifies cl, cl.conn
    ensures cl.Value() == Posted(old(cl.Value()), [Bind(registry, name, interface, version, id)], [])
  {
    hide EncodeRequests;
    var w := new Writer(registry, REQ_BIND);
    w.U32(name);
    w.Str(interface);
    w.U32(version);
    w.U32(id);
    assert w.args == Bind(registry, name, interface, version, id).args;
    cl.Post(w);
  }

  // ---- Bootstrap ----------------------------------------------------------

  lemma {:induction false} BootstrapUnrolled<X>(h: Handler<Session<X>>, selector: Name, m: Machine<Session<X>>)
    ensures var p := Bootstrap<X>(selector);
            var (status, r) := RunPhase(h, p[0], m);
            RunPhases(h, p, m) == if status.Completed? then RunPhase(h, p[1], r) else (status, r)
  {
    hide RunPhase;
    var p := Bootstrap<X>(selector);
    assert p == [p[0], p[1]];
    TwoPhases(h, p[0], p[1], m);
  }

  /** bootstrap, up to the first wait. */
  method RegistryPhase<X>(cl: Client<Session<X>>, ghost selector: Name) returns (ok: bool)
    modifies cl, cl.conn
    ensures var (status, r) := RunPhase(cl.dispatcher, Bootstrap<X>(selector)[0], old(cl.Value()));
            cl.Value() == r && ok == status.Completed?
  {
    hide EncodeRequests, Run;
    ghost var m := cl.Value();
    SendGetRegistry(cl);
    var callback := SendSync(cl);
    cl.st := cl.st.(g := cl.st.g.(syncCbId := callback));
    PostedTwice(m, [GetRegistry(m.nextId)], [Sync(Next(m.nextId))]);
    assert [GetRegistry(m.nextId)] + [Sync(Next(m.nextId))] == [GetRegistry(m.nextId), Sync(Next(m.nextId))];
    assert cl.Value() == EnterMachine(m, EnterRegistry(m.objects, m.nextId, m.st));
    ok := cl.DispatchUntil(SyncDone());
  }

  /** bootstrap, from the choice of globals to the second wait. */
  method BindPhase<X>(cl: Client<Session<X>>, selector: Name) returns (ok: bool)
    modifies cl, cl.conn
    ensures var (status, r) := RunPhase(cl.dispatcher, Bootstrap<X>(selector)[1], old(cl.Value()));
            cl.Value() == r && ok == status.Completed?
  {
    hide EncodeRequests, Run;
    ghost var m := cl.Value();
    if cl.st.g.managers == [] {
      return false;
    }
    if cl.st.g.seats == [] {
      return false;
    }
    var seatIndex := 0;
    if selector != [] && AllDigits(selector) {
      seatIndex := Decimal(selector);
      if seatIndex >= |cl.st.g.seats| {
        return false;
      }
    }
    ok := BindChosen(cl, selector, seatIndex);
  }

  method BindChosen<X>(cl: Client<Session<X>>, ghost selector: Name, seatIndex: nat) returns (ok: bool)
    requires cl.st.g.managers != [] && PickSeat(selector, |cl.st.g.seats|) == Some(seatIndex)
    modifies cl, cl.conn
    ensures var (status, r) := RunPhase(cl.dispatcher, Bootstrap<X>(selector)[1], old(cl.Value()));
            cl.Value() == r && ok == status.Completed?
  {
    hide EncodeRequests, Run, PickSeat;
    ghost var m := cl.Value();
    BindSeat(cl, cl.st.g.seats[seatIndex]);
    BindManager(cl, cl.st.g.managers[0]);
    cl.st := cl.st.(g := cl.st.g.(syncDone := false));
    var callback := SendSync(cl);
    cl.st := cl.st.(g := cl.st.g.(syncCbId := callback));
    ghost var e := EnterBind(selector, m.objects, m.nextId, m.st);
    BoundTogether(m, e, cl.Value());
    ok := cl.DispatchUntil(SyncDone());
  }

  method BindSeat<X>(cl: Client<Session<X>>, sg: Global)
    modifies cl, cl.conn
    ensures var m := old(cl.Value());
            cl.Value() == Posted(m.(objects := m.objects[m.nextId := Seat], nextId := Next(m.nextId),
                                    st := m.st.(seatId := m.nextId)),
                                 [Bind(m.st.g.registryId, sg.name, IF_SEAT, Min(sg.version, 7), m.nextId)], [])
  {
    hide EncodeRequests;
    var seat := cl.AllocId();
    cl.st := cl.st.(seatId := seat);
    cl.RegisterObject(seat, Seat);
    SendBind(cl, cl.st.g.registryId, sg.name, IF_SEAT, Min(sg.version, 7), seat);
  }

  method BindManager<X>(cl: Client<Session<X>>, mg: Global)
    modifies cl, cl.conn
    ensures var m := old(cl.Value());
            cl.Value() == Posted(m.(objects := m.objects[m.nextId := Manager], nextId := Next(m.nextId),
                                    st := m.st.(managerId := m.nextId, managerVersion := Min(mg.version, 2))),
                                 [Bind(m.st.g.registryId, mg.name, IF_MANAGER, Min(mg.version, 2), m.nextId)], [])
  {
    hide EncodeRequests;
    var manager := cl.AllocId();
    var version := Min(mg.version, 2);
    cl.st := cl.st.(managerId := manager, managerVersion := version);
    cl.RegisterObject(manager, Manager);
    SendBind(cl, cl.st.g.registryId, mg.name, IF_MANAGER, version, manager);
  }

  /** Posting three requests one by one, with the state changes around them, is entering the phase. */
  lemma {:induction false} BoundTogether<S>(m: Machine<S>, e: Entry<S>, r: Machine<S>)
    requires e.Entered? && |e.reqs| == 3 && e.fds == [] && !e.eager
    requires var p0 := Posted(m, [e.reqs[0]], []);
             var p1 := Posted(p0, [e.reqs[1]], []);
             var p2 := Posted(p1, [e.reqs[2]], []);
             r == p2.(objects := e.objects, nextId := e.nextId, st := e.st)
    ensures r == EnterMachine(m, e)
  {
    hide EncodeRequests;
    PostedTwice(m, [e.reqs[0]], [e.reqs[1]]);
    PostedTwice(m, [e.reqs[0]] + [e.reqs[1]], [e.reqs[2]]);
    assert [e.reqs[0]] + [e.reqs[1]] + [e.reqs[2]] == e.reqs;
  }

  method RunBootstrap<X>(cl: Client<Session<X>>, selector: Name) returns (ok: bool)
    modifies cl, cl.conn
    ensures var (status, r) := RunPhases(cl.dispatcher, Bootstrap<X>(selector), old(cl.Value()));
            cl.Value() == r && ok == (status.Completed? && NameMatches(selector, r.st.seatName))
  {
    hide RunPhase, RunPhases, Bootstrap;
    BootstrapUnrolled(cl.dispatcher, selector, cl.Value());
    ok := RegistryPhase(cl, selector);
    if ok {
      ok := BindPhase(cl, selector);
    }
    if ok && selector != [] && !AllDigits(selector) && cl.st.seatName != selector {
      ok := false;
    }
  }

  // ---- Copy ---------------------------------------------------------------

  /** create_data_source, get_data_device, one offer per type, set_selection; then flush. */
  method OfferSelection(cl: Client<CopySession>, ghost selector: Name, sel: Selection)
    requires EnterCopy(selector, sel, cl.objects, cl.nextId, cl.st).Entered?
    modifies cl, cl.conn
    ensures var m := old(cl.Value());
            cl.Value() == EnterMachine(m, EnterCopy(selector, sel, m.objects, m.nextId, m.st))
  {
    hide EncodeRequests, FlushMachine, NameMatches;
    ghost var m := cl.Value();
    ghost var e := EnterCopy(selector, sel, m.objects, m.nextId, m.st);
    CreateSourceAndDevice(cl);
    var mimes, source, device := cl.st.ext.mimes, cl.st.ext.sourceId, cl.st.deviceId;
    PostOffers(cl, source, mimes);
    PostSetSelection(cl, device, sel, source);
    ghost var base := m.(objects := e.objects, nextId := e.nextId, st := e.st);
    PostedInOrder(base, [CreateDataSource(m.st.managerId, source), GetDataDevice(m.st.managerId, device, m.st.seatId)],
                  SourceOffers(source, mimes), [SetSelection(device, sel, source)]);
    var _ := cl.Flush();
  }

  lemma {:induction false} PostedInOrder<S>(m: Machine<S>, a: seq<Request>, b: seq<Request>, c: seq<Request>)
    ensures Posted(Posted(Posted(m, a, []), b, []), c, []) == Posted(m, a + b + c, [])
  {
    hide Posted;
    PostedTwice(m, a, b);
    PostedTwice(m, a + b, c);
  }

  method CreateSourceAndDevice(cl: Client<CopySession>)
    modifies cl, cl.conn
    ensures var m := old(cl.Value());
            var source, device := m.nextId, Next(m.nextId);
            cl.Value() == Posted(m.(objects := m.objects[source := Source][device := Device], nextId := Next(device),
                                    st := m.st.(deviceId := device, ext := m.st.ext.(sourceId := source))),
                                 [CreateDataSource(m.st.managerId, source),
                                  GetDataDevice(m.st.managerId, device, m.st.seatId)], [])
  {
    hide EncodeRequests;
    ghost var m := cl.Value();
    var manager, seat := cl.st.managerId, cl.st.seatId;
    var source := cl.AllocId();
    cl.st := cl.st.(ext := cl.st.ext.(sourceId := source));
    cl.RegisterObject(source, Source);
    PostCreateDataSource(cl, manager, source);
    var device := cl.AllocId();
    cl.st := cl.st.(deviceId := device);
    cl.RegisterObject(device, Device);
    PostGetDataDevice(cl, manager, device, seat);
    PostedTwice(m.(objects := cl.objects, nextId := cl.nextId, st := cl.st),
                [CreateDataSource(manager, source)], [GetDataDevice(manager, device, seat)]);
    assert [CreateDataSource(manager, source)] + [GetDataDevice(manager, device, seat)]
        == [CreateDataSource(manager, source), GetDataDevice(manager, device, seat)];
  }

  method PostCreateDataSource<X>(cl: Client<Session<X>>, manager: U32, source: U32)
    modifies cl, cl.conn
    ensures cl.Value() == Posted(old(cl.Value()), [CreateDataSource(manager, source)], [])
  {
    hide EncodeRequests;
    var w := new Writer(manager, REQ_CREATE_DATA_SOURCE);
    w.U32(source);
    assert w.args == CreateDataSource(manager, source).args;
    cl.Post(w);
  }

  method PostGetDataDevice<X>(cl: Client<Session<X>>, manager: U32, device: U32, seat: U32)
    modifies cl, cl.conn
    ensures cl.Value() == Posted(old(cl.Value()), [GetDataDevice(manager, device, seat)], [])
  {
    hide EncodeRequests;
    var w := new Writer(manager, REQ_GET_DATA_DEVICE);
    w.U32(device);
    w.U32(seat);
    assert w.args == GetDataDevice(manager, device, seat).args;
    cl.Post(w);
  }

  method PostOffers<X>(cl: Client<Session<X>>, source: U32, mimes: seq<Name>)
    modifies cl, cl.conn
    ensures cl.Value() == Posted(old(cl.Value()), SourceOffers(source, mimes), [])
  {
    hide EncodeRequests, Posted;
    ghost var m := cl.Value();
    PostedNothing(m);
    for i := 0 to |mimes|
      invariant cl.Value() == Posted(m, SourceOffers(source, mimes[..i]), [])
    {
      var w := new Writer(source, REQ_SOURCE_OFFER);
      w.Str(mimes[i]);
      assert w.args == SourceOffer(source, mimes[i]).args;
      cl.Post(w);
      PostedTwice(m, SourceOffers(source, mimes[..i]), [SourceOffer(source, mimes[i])]);
      assert SourceOffers(source, mimes[..i + 1]) == SourceOffers(source, mimes[..i]) + [SourceOffer(source, mimes[i])];
    }
    assert mimes[..|mimes|] == mimes;
  }

  method PostSetSelection<X>(cl: Client<Session<X>>, device: U32, sel: Selection, source: U32)
    modifies cl, cl.conn
    ensures cl.Value() == Posted(old(cl.Value()), [SetSelection(device, sel, source)], [])
  {
    hide EncodeRequests;
    var w := new Writer(device, if sel == Primary then REQ_SET_PRIMARY_SELECTION else REQ_SET_SELECTION);
    w.U32(source);
    assert w.args == SetSelection(device, sel, source).args;
    cl.Post(w);
  }

  method CopyAfterBootstrap(cl: Client<CopySession>, selector: Name, sel: Selection) returns (ok: bool)
    requires NameMatches(selector, cl.st.seatName)
    modifies cl, cl.conn
    ensures var (status, r) := RunPhase(cl.dispatcher, CopyPhase(selector, sel), old(cl.Value()));
            cl.Value() == r && ok == CopyVerdict(status, r.st)
  {
    hide EncodeRequests, Run, FlushMachine, NameMatches;
    if sel == Primary && cl.st.managerVersion < 2 {
      return false;
    }
    if cl.st.ext.mimes == [] {
      return false;
    }
    OfferSelection(cl, selector, sel);
    ok := cl.DispatchUntil(CopyDone());
    ok := ok && (!cl.st.ext.cancelled || cl.st.ext.served > 0);
  }

  // ---- Paste --------------------------------------------------------------

  method PasteAfterBootstrap(cl: Client<PasteSession>, selector: Name, sel: Selection) returns (ok: bool)
    requires NameMatches(selector, cl.st.seatName)
    modifies cl, cl.conn
    ensures var (status, r) := RunPhase(cl.dispatcher, PastePhase(selector, sel), old(cl.Value()));
            cl.Value() == r && ok == status.Completed?
  {
    hide EncodeRequests, Run, FlushMachine, NameMatches;
    if sel == Primary && cl.st.managerVersion < 2 {
      return false;
    }
    ghost var m := cl.Value();
    var device := cl.AllocId();
    cl.st := cl.st.(deviceId := device);
    cl.RegisterObject(device, Device);
    PostGetDataDevice(cl, cl.st.managerId, device, cl.st.seatId);
    var _ := cl.Flush();
    assert cl.Value() == EnterMachine(m, EnterPaste(selector, sel, m.objects, m.nextId, m.st));
    ok := cl.DispatchUntil(TargetSeen(sel));
  }

  /** The last phase of paste has no wait. */
  lemma {:induction false} ReceiveAtOnce(h: Handler<PasteSession>, sel: Selection, prefer: Name, listOnly: bool,
                                         pipe: Option<int>, m: Machine<PasteSession>)
    ensures var e := EnterReceive(sel, prefer, listOnly, pipe, m.objects, m.nextId, m.st);
            RunPhase(h, ReceivePhase(sel, prefer, listOnly, pipe), m)
            == (if e.Refused? then Rejected else Completed, EnterMachine(m, e))
  {
    hide EnterReceive, EnterMachine;
  }

  /** From the lookup of the offer to the flushed receive request. `asked` says that data was asked for. */
  method AskForData(cl: Client<PasteSession>, sel: Selection, prefer: Name, listOnly: bool, pipe: Option<int>)
    returns (ok: bool, asked: bool)
    modifies cl, cl.conn
    ensures var (status, r) := RunPhase(cl.dispatcher, ReceivePhase(sel, prefer, listOnly, pipe), old(cl.Value()));
            cl.Value() == r && ok == status.Completed? && asked == (ok && !listOnly)
  {
    hide EncodeRequests, FlushMachine, ChooseMime, FindOffer, RunPhase, ReceivePhase, Posted;
    ghost var m := cl.Value();
    ReceiveAtOnce(cl.dispatcher, sel, prefer, listOnly, pipe, m);
    var id := if sel == Primary then cl.st.ext.currentPrimary else cl.st.ext.currentRegular;
    if id == 0 {
      return false, false;
    }
    var rec := FindOffer(cl.st.ext.offers, id);
    if rec == None {
      return false, false;
    }
    cl.st := cl.st.(ext := cl.st.ext.(available := rec.value.mimes));
    if listOnly {
      PostedNothing(cl.Value());
      return true, false;
    }
    var mime := ChooseMime(rec.value.mimes, prefer);
    if mime == [] {
      return false, false;
    }
    cl.st := cl.st.(ext := cl.st.ext.(mime := mime));
    if pipe == None {
      return false, false;
    }
    PostReceive(cl, id, mime, pipe.value);
    var _ := cl.Flush();
    assert cl.Value() == EnterMachine(m, EnterReceive(sel, prefer, listOnly, pipe, m.objects, m.nextId, m.st));
    return true, true;
  }

  method PostReceive<X>(cl: Client<Session<X>>, offer: U32, mime: Name, fd: int)
    modifies cl, cl.conn
    ensures cl.Value() == Posted(old(cl.Value()), [Receive(offer, mime)], [fd])
  {
    hide EncodeRequests;
    var w := new Writer(offer, REQ_RECEIVE);
    w.Str(mime);
    assert w.args == Receive(offer, mime).args;
    cl.Post(w);
    cl.conn.OutFd(fd);
    assert old(cl.conn.outFds) + [] == old(cl.conn.outFds);
  }

  lemma {:induction false} PostedNothing<S>(m: Machine<S>)
    ensures Posted(m, [], []) == m
  {
    assert MessagesOf([]) == [];
    assert EncodeRequests([]) == [];
    assert m.q.outBuf + [] == m.q.outBuf && m.q.outFds + [] == m.q.outFds;
    assert m.log + QueuedItems([]) == m.log;
  }

  datatype PasteResult = PasteResult(mime: Name, bytes: seq<Byte>, available: seq<Name>)

  /** The result fields at the end of a paste. */
  function ResultOf(st: PasteSession, bytes: seq<Byte>): PasteResult {
    PasteResult(st.ext.mime, bytes, st.ext.available)
  }

  // ---- The backend --------------------------------------------------------

  class HandcraftedBackend {
    const seat: Name

    constructor (seat: Name)
      ensures this.seat == seat
    {
      this.seat := seat;
    }

    /** copy over a connected socket whose answers are `sends` and `recvs`. */
    method Copy(sel: Selection, bytes: seq<Byte>, mimes: seq<Name>, oneshot: bool, sends: seq<SendAnswer>,
                recvs: seq<RecvAnswer>) returns (ok: bool, ghost end: Machine<CopySession>)
      ensures var (status, r) := RunPhases(CopyDispatcher(), CopyProgram(seat, sel),
                                           NewMachine(NewCopy(bytes, mimes, oneshot), sends, recvs));
              ok == CopyVerdict(status, r.st)
      ensures end == RunPhases(CopyDispatcher(), CopyProgram(seat, sel),
                               NewMachine(NewCopy(bytes, mimes, oneshot), sends, recvs)).1
    {
      hide RunPhase, RunPhases, Bootstrap, CopyPhase, NameMatches;
      var cl := new Client<CopySession>(CopyDispatcher(), NewCopy(bytes, mimes, oneshot), sends, recvs);
      ghost var m := cl.Value();
      PhasesConcat(cl.dispatcher, Bootstrap<CopyState>(seat), [CopyPhase(seat, sel)], m);
      ok := RunBootstrap(cl, seat);
      CopyTail(cl.dispatcher, seat, sel, cl.Value());
      if ok {
        ok := CopyAfterBootstrap(cl, seat, sel);
      }
      end := cl.Value();
      cl.conn.Close();
    }

    /** paste; `pipe` is the write end make_pipe yields, `readings` what the read end then delivers. */
    method Paste(sel: Selection, prefer: Name, listOnly: bool, pipe: Option<int>, readings: seq<Transfer.ReadAnswer>,
                 sends: seq<SendAnswer>, recvs: seq<RecvAnswer>)
      returns (ok: bool, out: PasteResult, ghost end: Machine<PasteSession>)
      ensures var (status, r) := RunPhases(PasteDispatcher(), PasteProgram(seat, sel, prefer, listOnly, pipe),
                                           NewMachine(NewPaste(), sends, recvs));
              && ok == status.Completed?
              && out.available == r.st.ext.available && out.mime == r.st.ext.mime
              && out.bytes == if ok && !listOnly then Transfer.DrainRun(readings) else []
      ensures end == RunPhases(PasteDispatcher(), PasteProgram(seat, sel, prefer, listOnly, pipe),
                               NewMachine(NewPaste(), sends, recvs)).1
    {
      hide RunPhase, RunPhases, Bootstrap, PastePhase, ReceivePhase, NameMatches;
      var cl := new Client<PasteSession>(PasteDispatcher(), NewPaste(), sends, recvs);
      ghost var m := cl.Value();
      PhasesConcat(cl.dispatcher, Bootstrap<PasteState>(seat),
                   [PastePhase(seat, sel), ReceivePhase(sel, prefer, listOnly, pipe)], m);
      ok := RunBootstrap(cl, seat);
      PasteTail(cl.dispatcher, seat, sel, prefer, listOnly, pipe, cl.Value());
      var bytes := [];
      if ok {
        ok := PasteAfterBootstrap(cl, seat, sel);
        if ok {
          var asked;
          ok, asked := AskForData(cl, sel, prefer, listOnly, pipe);
          if asked {
            bytes := Transfer.DrainFd(readings);
          }
        }
      }
      out := ResultOf(cl.st, bytes);
      end := cl.Value();
      cl.conn.Close();
    }
  }

  /** The last phase of copy: refused outright when the seat's name does not match. */
  lemma {:induction false} CopyTail(h: Handler<CopySession>, selector: Name, sel: Selection, m: Machine<CopySession>)
    ensures RunPhases(h, [CopyPhase(selector, sel)], m) == RunPhase(h, CopyPhase(selector, sel), m)
    ensures !NameMatches(selector, m.st.seatName) ==> RunPhase(h, CopyPhase(selector, sel), m) == (Rejected, m)
  {
    hide Run;
    OnePhase(h, CopyPhase(selector, sel), m);
  }

  lemma {:induction false} PasteTail(h: Handler<PasteSession>, selector: Name, sel: Selection, prefer: Name,
                                     listOnly: bool, pipe: Option<int>, m: Machine<PasteSession>)
    ensures var a, b := PastePhase(selector, sel), ReceivePhase(sel, prefer, listOnly, pipe);
            var (status, r) := RunPhase(h, a, m);
            && RunPhases(h, [a, b], m) == (if status.Completed? then RunPhase(h, b, r) else (status, r))
            && (!NameMatches(selector, m.st.seatName) ==> RunPhase(h, a, m) == (Rejected, m))
  {
    hide Run;
    TwoPhases(h, PastePhase(selector, sel), ReceivePhase(sel, prefer, listOnly, pipe), m);
  }
}
