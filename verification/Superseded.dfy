/** The offers a client should have destroyed: after every new selection of a kind, the offer that was current before
    (wlr-data-control-unstable-v1, events selection and primary_selection). The handcrafted client never does. */
module Superseding {
  import opened Bytes
  import opened Wire
  import opened Connections
  import opened Dispatching
  import opened Clients
  import opened Phases
  import opened Completion
  import opened Mime
  import opened Handcrafted
  import opened Compositor
  import opened CopyRuns
  import opened PasteRuns

  // ---- Read off the log alone ---------------------------------------------

  /** get_data_device, as its bytes show it. */
  predicate MakesDevice(r: Request, device: U32) {
    r.opcode == 1 && |EncodeArgs(r.args)| == 8 && Word(MessageOf(r)) == device
  }

  ghost predicate Made(log: seq<LogItem>, device: U32) {
    exists g :: 0 <= g < |log| && log[g].Queued? && MakesDevice(log[g].req, device)
  }

  function SelectionOpcode(sel: Selection): U16 {
    if sel.Primary? then 3 else 1
  }

  /** At h a device of the client announces the offer. */
  ghost predicate AnnouncesAt(log: seq<LogItem>, h: int, offer: U32) {
    && 0 <= h < |log| && log[h].Event? && log[h].msg.opcode == 0 && Word(log[h].msg) == offer
    && Made(log[..h], log[h].msg.id)
  }

  ghost predicate Announced(log: seq<LogItem>, offer: U32) {
    exists h :: AnnouncesAt(log, h, offer)
  }

  /** At i a device of the client gets a selection event of this kind. */
  ghost predicate SelectsAt(log: seq<LogItem>, i: int, device: U32, sel: Selection) {
    && 0 <= i < |log| && log[i].Event? && log[i].msg.id == device && log[i].msg.opcode == SelectionOpcode(sel)
    && Made(log[..i], device)
  }

  /** At i such an event names an announced offer. */
  ghost predicate NamesAt(log: seq<LogItem>, i: int, device: U32, sel: Selection, offer: U32) {
    SelectsAt(log, i, device, sel) && Word(log[i].msg) == offer && Announced(log[..i], offer)
  }

  ghost predicate Named(log: seq<LogItem>, device: U32, sel: Selection, offer: U32) {
    exists i :: NamesAt(log, i, device, sel, offer)
  }

  /** Of two selection events of one kind for one device, the earlier names this offer. */
  ghost predicate SupersededAt(log: seq<LogItem>, j: int, device: U32, sel: Selection, offer: U32) {
    SelectsAt(log, j, device, sel) && Named(log[..j], device, sel, offer)
  }

  ghost predicate Superseded(log: seq<LogItem>, offer: U32) {
    exists j, device, sel :: SupersededAt(log, j, device, sel, offer)
  }

  // ---- One more item ------------------------------------------------------

  lemma {:induction false} PrefixOfSnoc(log: seq<LogItem>, x: LogItem, k: int)
    requires 0 <= k <= |log|
    ensures (log + [x])[..k] == log[..k]
    ensures k < |log| ==> (log + [x])[k] == log[k]
  {
  }

  lemma {:induction false} MadeSnoc(log: seq<LogItem>, x: LogItem, device: U32)
    ensures Made(log + [x], device) <==> Made(log, device) || (x.Queued? && MakesDevice(x.req, device))
  {
    hide MakesDevice;
    var all := log + [x];
    assert all[|log|] == x;
    if Made(log, device) {
      var g :| 0 <= g < |log| && log[g].Queued? && MakesDevice(log[g].req, device);
      assert all[g] == log[g];
    }
  }

  lemma {:induction false} AnnouncedSnoc(log: seq<LogItem>, x: LogItem, offer: U32)
    ensures Announced(log + [x], offer) <==>
            Announced(log, offer)
            || (x.Event? && x.msg.opcode == 0 && Word(x.msg) == offer && Made(log, x.msg.id))
  {
    hide Made, Word;
    var all := log + [x];
    assert all[..|log|] == log && all[|log|] == x;
    if Announced(log, offer) {
      var h :| AnnouncesAt(log, h, offer);
      PrefixOfSnoc(log, x, h);
      assert AnnouncesAt(all, h, offer);
    }
    if h :| AnnouncesAt(all, h, offer) {
      PrefixOfSnoc(log, x, h);
      assert h < |log| ==> AnnouncesAt(log, h, offer);
    }
    if x.Event? && x.msg.opcode == 0 && Word(x.msg) == offer && Made(log, x.msg.id) {
      assert AnnouncesAt(all, |log|, offer);
    }
  }

  lemma {:induction false} NamedSnoc(log: seq<LogItem>, x: LogItem, device: U32, sel: Selection, offer: U32)
    ensures Named(log + [x], device, sel, offer) <==>
            Named(log, device, sel, offer)
            || (SelectsAt(log + [x], |log|, device, sel) && Word(x.msg) == offer && Announced(log, offer))
  {
    hide Made, Word, Announced;
    var all := log + [x];
    assert all[..|log|] == log && all[|log|] == x;
    if Named(log, device, sel, offer) {
      var i :| NamesAt(log, i, device, sel, offer);
      PrefixOfSnoc(log, x, i);
      assert NamesAt(all, i, device, sel, offer);
    }
    if i :| NamesAt(all, i, device, sel, offer) {
      PrefixOfSnoc(log, x, i);
      assert i < |log| ==> NamesAt(log, i, device, sel, offer);
    }
    if SelectsAt(all, |log|, device, sel) && Word(x.msg) == offer && Announced(log, offer) {
      assert NamesAt(all, |log|, device, sel, offer);
    }
  }

  lemma {:induction false} SupersededSnoc(log: seq<LogItem>, x: LogItem, offer: U32)
    ensures Superseded(log + [x], offer) <==>
            Superseded(log, offer)
            || exists device, sel :: SelectsAt(log + [x], |log|, device, sel) && Named(log, device, sel, offer)
  {
    hide Made, Named;
    var all := log + [x];
    assert all[..|log|] == log && all[|log|] == x;
    if Superseded(log, offer) {
      var j, device, sel :| SupersededAt(log, j, device, sel, offer);
      PrefixOfSnoc(log, x, j);
      assert SupersededAt(all, j, device, sel, offer);
    }
    if j, device, sel :| SupersededAt(all, j, device, sel, offer) {
      PrefixOfSnoc(log, x, j);
      assert j < |log| ==> SupersededAt(log, j, device, sel, offer);
    }
    if device, sel :| SelectsAt(all, |log|, device, sel) && Named(log, device, sel, offer) {
      assert SupersededAt(all, |log|, device, sel, offer);
    }
  }

  // ---- What the compositor remembers --------------------------------------

  predicate IsDevice(p: Peer, id: U32) {
    id in p.objs && p.objs[id].SDevice?
  }

  ghost predicate IdsInOrder(p: Peer) {
    p.next <= SERVER_ID_MIN && forall id | id in p.objs :: 1 <= id < p.next
  }

  /** The compositor's memory says what the log says. */
  ghost predicate Remembers(p: Peer, log: seq<LogItem>) {
    && (forall device :: IsDevice(p, device) <==> Made(log, device))
    && (forall offer :: offer in p.offers <==> Announced(log, offer))
    && (forall k | k in p.shown :: Named(log, k.0, k.1, p.shown[k]))
    && (forall device: U32, sel: Selection, offer: U32 :: Named(log, device, sel, offer) ==>
          ((device, sel) in p.shown && p.shown[(device, sel)] == offer) || Superseded(log, offer))
    && (forall offer :: offer in p.owed <==> Superseded(log, offer))
  }

  lemma {:induction false} IdsFromOne(p: Peer)
    requires IdsInOrder(p)
    ensures 0 !in p.objs && forall id | id in p.objs :: p.next > 1
  {
  }

  lemma {:induction false} CreateMakes(p: Peer, id: U32, o: ServerObj)
    requires IdsInOrder(p) && p.next > 1 && Create(p, id, o).Fair?
    ensures var q := Create(p, id, o).peer;
            && q.offers == p.offers && q.shown == p.shown && q.owed == p.owed && IdsInOrder(q)
            && forall device :: IsDevice(q, device) <==> IsDevice(p, device) || (device == id && o.SDevice?)
  {
  }

  lemma {:induction false} TakingMakes(p: Peer, device: U32, sel: Selection, source: U32)
    requires IdsInOrder(p) && source in p.objs && p.objs[source].SSource?
    ensures var q := Takes(p, device, sel, source);
            && q.offers == p.offers && q.shown == p.shown && q.owed == p.owed && IdsInOrder(q)
            && forall d :: IsDevice(q, d) <==> IsDevice(p, d)
  {
  }

  /** What an admitted request does to the offers and the devices. */
  lemma {:induction false} AdmitMakes(p: Peer, id: U32, opcode: U16, args: seq<Arg>)
    requires IdsInOrder(p) && Signature(p, id, opcode) == Some(KindsOf(args)) && args != []
    requires Admit(p, id, opcode, args).Fair?
    ensures var q := Admit(p, id, opcode, args).peer;
            && q.offers == p.offers && q.shown == p.shown && q.owed == p.owed && IdsInOrder(q)
            && forall device :: IsDevice(q, device) <==>
                 IsDevice(p, device)
                 || (id in p.objs && p.objs[id].SManager? && opcode == 1 && device == args[0].u)
    ensures id in p.objs && p.objs[id].SManager? && opcode == 1 ==> |args| == 2 && args[1].UInt? && args[1].u != 0
  {
    hide Advertised, Ascii, Create, Takes, IdsInOrder, IsDevice;
    assert 0 !in p.objs && (id in p.objs ==> p.next > 1) by { IdsFromOne(p); }
    var ks := KindsOf(args);
    assert forall i | 0 <= i < |args| :: ks[i] == KindOf(args[i]);
    if id !in p.objs {
    } else if p.objs[id].SRegistry? {
      CreateMakes(p, args[3].u, if args[1].s == IF_SEAT then SSeat else SManager(args[2].u));
    } else if p.objs[id].SDevice? {
      TakingMakes(p, id, if opcode == 0 then Regular else Primary, args[0].u);
    } else if p.objs[id].SDisplay? {
      CreateMakes(p, args[0].u, if opcode == 0 then SCallback else SRegistry);
    } else if p.objs[id].SManager? {
      CreateMakes(p, args[0].u, if opcode == 0 then SSource(false) else SDevice(p.objs[id].version));
    }
  }

  /** Only get_data_device makes a device, and a request with arguments leaves the offers alone. */
  lemma {:induction false} RequestMakes(p: Peer, r: Request)
    requires IdsInOrder(p) && EncodeArgs(r.args) != [] && JudgeRequest(p, MessageOf(r)).Fair?
    ensures var q := JudgeRequest(p, MessageOf(r)).peer;
            && q.offers == p.offers && q.shown == p.shown && q.owed == p.owed && IdsInOrder(q)
            && forall device :: IsDevice(q, device) <==> IsDevice(p, device) || MakesDevice(r, device)
  {
    hide FromLe32, EncodeArgs, Advertised, Ascii, Admit;
    var payload := EncodeArgs(r.args);
    var sig := Signature(p, r.id, r.opcode).value;
    var (args, end) := ReadArgs(sig, payload, 0);
    assert |KindsOf(args)| == |args|;
    AdmitMakes(p, r.id, r.opcode, args);
    if r.opcode == 1 && sig == [UIntKind, UIntKind] {
      assert sig[1..] == [UIntKind] && sig[1..][1..] == [];
      TwoWordsRead(payload);
    } else if sig == [UIntKind] {
      assert sig[1..] == [];
      OneWordRead(payload);
    }
  }

  lemma {:induction false} OneWordRead(payload: seq<Byte>)
    ensures ReadArgs([UIntKind], payload, 0).1 <= 4
  {
    hide FromLe32;
    assert [UIntKind][1..] == [];
  }

  lemma {:induction false} TwoWordsRead(payload: seq<Byte>)
    ensures var (args, end) := ReadArgs([UIntKind, UIntKind], payload, 0);
            && |args| == 2 && args[0] == UInt(ReadU32(payload, 0).0) && end <= 8
            && (end < 8 ==> args[1] == UInt(0))
  {
    hide FromLe32;
    var ks := [UIntKind, UIntKind];
    var (first, c1) := ReadU32(payload, 0);
    var (second, c2) := ReadU32(payload, c1);
    assert ks[1..] == [UIntKind] && ks[1..][1..] == [];
    assert ReadArgs(ks[1..][1..], payload, c2) == ([], c2);
    assert ReadArgs(ks[1..], payload, c1) == ([UInt(second)] + [], c2);
    assert ReadArgs(ks, payload, 0) == ([UInt(first)] + ([UInt(second)] + []), c2);
  }

  lemma {:induction false} QueuedKeepsMemory(p: Peer, log: seq<LogItem>, r: Request)
    requires Remembers(p, log) && IdsInOrder(p) && EncodeArgs(r.args) != [] && JudgeRequest(p, MessageOf(r)).Fair?
    ensures Remembers(JudgeRequest(p, MessageOf(r)).peer, log + [Queued(r)])
  {
    hide Made, Announced, Named, Superseded, JudgeRequest, MakesDevice, Word;
    RequestMakes(p, r);
    var x: LogItem := Queued(r);
    forall device ensures Made(log + [x], device) <==> Made(log, device) || MakesDevice(r, device) {
      MadeSnoc(log, x, device);
    }
    forall offer ensures Announced(log + [x], offer) <==> Announced(log, offer) { AnnouncedSnoc(log, x, offer); }
    NothingSelected(log, x);
  }

  /** An item that is no selection names and supersedes nothing. */
  lemma {:induction false} NothingSelected(log: seq<LogItem>, x: LogItem)
    requires forall device, sel :: !SelectsAt(log + [x], |log|, device, sel)
    ensures forall device, sel, offer :: Named(log + [x], device, sel, offer) <==> Named(log, device, sel, offer)
    ensures forall offer :: Superseded(log + [x], offer) <==> Superseded(log, offer)
  {
    hide SelectsAt, Named, Superseded;
    forall device, sel, offer ensures Named(log + [x], device, sel, offer) <==> Named(log, device, sel, offer) {
      NamedSnoc(log, x, device, sel, offer);
    }
    forall offer ensures Superseded(log + [x], offer) <==> Superseded(log, offer) { SupersededSnoc(log, x, offer); }
  }

  lemma {:induction false} EventKeepsMemory(p: Peer, log: seq<LogItem>, m: Message, fd: int)
    requires Remembers(p, log) && IdsInOrder(p) && JudgeEvent(p, m).Fair?
    ensures Remembers(JudgeEvent(p, m).peer, log + [Event(m, fd)]) && IdsInOrder(JudgeEvent(p, m).peer)
  {
    hide Made, Announced, Named, Superseded, Word, AdvertOf, Text;
    var x: LogItem := Event(m, fd);
    var q := JudgeEvent(p, m).peer;
    var all := log + [x];
    assert all[..|log|] == log && all[|log|] == x;
    forall device ensures Made(all, device) <==> Made(log, device) { MadeSnoc(log, x, device); }
    forall offer
      ensures Announced(all, offer) <==>
              Announced(log, offer) || (m.opcode == 0 && Word(m) == offer && Made(log, m.id))
    {
      AnnouncedSnoc(log, x, offer);
    }
    if IsDevice(p, m.id) && (m.opcode == 1 || m.opcode == 3) {
      ShowKeepsMemory(p, log, x, if m.opcode == 1 then Regular else Primary);
    } else {
      NothingSelected(log, x);
    }
  }

  lemma {:induction false} ShowKeepsMemory(p: Peer, log: seq<LogItem>, x: LogItem, sel: Selection)
    requires Remembers(p, log) && x.Event? && IsDevice(p, x.msg.id) && x.msg.opcode == SelectionOpcode(sel)
    ensures var q := Show(p, x.msg.id, sel, Word(x.msg));
            var all := log + [x];
            && (forall k | k in q.shown :: Named(all, k.0, k.1, q.shown[k]))
            && (forall d: U32, s: Selection, offer: U32 :: Named(all, d, s, offer) ==>
                  ((d, s) in q.shown && q.shown[(d, s)] == offer) || Superseded(all, offer))
            && (forall offer :: offer in q.owed <==> Superseded(all, offer))
  {
    hide Made, Announced, Named, Superseded, Word;
    var m := x.msg;
    var all := log + [x];
    assert all[..|log|] == log && all[|log|] == x;
    assert forall d, s :: SelectsAt(all, |log|, d, s) <==> d == m.id && s == sel;
    forall d, s, offer
      ensures Named(all, d, s, offer) <==>
              Named(log, d, s, offer) || (d == m.id && s == sel && Word(m) == offer && Announced(log, offer))
    {
      NamedSnoc(log, x, d, s, offer);
    }
    forall offer ensures Superseded(all, offer) <==> Superseded(log, offer) || Named(log, m.id, sel, offer) {
      SupersededSnoc(log, x, offer);
    }
  }

  lemma {:induction false} MemoryIsLog(log: seq<LogItem>)
    requires Judge(Fair(NEW_PEER), log).Fair?
    requires forall item | item in log && item.Queued? :: EncodeArgs(item.req.args) != []
    ensures var p := Judge(Fair(NEW_PEER), log).peer; Remembers(p, log) && IdsInOrder(p)
    decreases |log|
  {
    hide Judge, JudgeItem, Remembers, IdsInOrder, EncodeArgs;
    if log == [] {
      assert Judge(Fair(NEW_PEER), []) == Fair(NEW_PEER) by { NothingJudged(); }
      StartRemembers();
    } else {
      var init, x := log[..|log| - 1], log[|log| - 1];
      assert log == init + [x];
      JudgeConcat(Fair(NEW_PEER), init, [x]);
      JudgeOne(Judge(Fair(NEW_PEER), init), x);
      if !Judge(Fair(NEW_PEER), init).Fair? {
        JudgeAfterFault(Judge(Fair(NEW_PEER), init), [x]);
      }
      assert forall item | item in init :: item in log;
      MemoryIsLog(init);
      ItemKeepsMemory(Judge(Fair(NEW_PEER), init).peer, init, x);
    }
  }

  lemma {:induction false} ItemKeepsMemory(p: Peer, log: seq<LogItem>, x: LogItem)
    requires Remembers(p, log) && IdsInOrder(p) && JudgeItem(Fair(p), x).Fair?
    requires x.Queued? ==> EncodeArgs(x.req.args) != []
    ensures var q := JudgeItem(Fair(p), x).peer; Remembers(q, log + [x]) && IdsInOrder(q)
  {
    hide JudgeEvent, JudgeRequest, Remembers, IdsInOrder, EncodeArgs;
    match x
    case Event(m, fd) => EventKeepsMemory(p, log, m, fd);
    case Queued(r) => RequestMakes(p, r); QueuedKeepsMemory(p, log, r);
  }

  lemma {:induction false} NothingJudged()
    ensures Judge(Fair(NEW_PEER), []) == Fair(NEW_PEER)
  {
  }

  lemma {:induction false} StartRemembers()
    ensures Remembers(NEW_PEER, []) && IdsInOrder(NEW_PEER)
  {
  }

  // ---- Whole runs ---------------------------------------------------------

  /** Every request has arguments, so none destroys an offer. */
  predicate ArgsGiven(reqs: seq<Request>) {
    forall r | r in reqs :: r.args != []
  }

  lemma {:induction false} ProgramGivesArgs<S(!new)>(h: Handler<S>, program: seq<Phase<S>>, m: Machine<S>)
    requires Silent(h) && ArgsGiven(Requests(m.log))
    requires forall i: nat, objects: Table, nextId: U32, st: S {:trigger program[i].enter(objects, nextId, st)} ::
               i < |program| && program[i].enter(objects, nextId, st).Entered? ==>
                 ArgsGiven(program[i].enter(objects, nextId, st).reqs)
    ensures ArgsGiven(Requests(RunPhases(h, program, m).1.log))
    decreases |program|
  {
    hide FlushRun, Run, Silent, EncodeRequests, Requests, EnterMachine;
    if program != [] {
      var e := program[0].enter(m.objects, m.nextId, m.st);
      var entered := EnterMachine(m, e);
      if e.Entered? {
        EnterState(m, e);
        SilentRun(h, program[0].done, entered);
        RequestsConcat(m.log, QueuedItems(e.reqs));
        RequestsOfQueued(e.reqs);
      } else {
        EnterRefused(m, e);
      }
      assert forall i: nat | i < |program| - 1 :: program[1..][i] == program[i + 1];
      ProgramGivesArgs(h, program[1..], RunPhase(h, program[0], m).1);
    }
  }

  lemma {:induction false} LogIsExact(log: seq<LogItem>)
    requires ArgsGiven(Requests(log)) && Judge(Fair(NEW_PEER), log).Fair?
    ensures var p := Judge(Fair(NEW_PEER), log).peer; forall offer :: offer in p.owed <==> Superseded(log, offer)
  {
    hide Judge, Requests, Superseded, EncodeArgs;
    forall item | item in log && item.Queued? ensures EncodeArgs(item.req.args) != [] {
      QueuedIsRequested(log, item);
      ArgsTakeBytes(item.req.args);
    }
    MemoryIsLog(log);
  }

  lemma {:induction false} ArgsTakeBytes(args: seq<Arg>)
    requires args != []
    ensures EncodeArgs(args) != []
  {
  }

  /** In every copy run in which nobody broke a judged rule, the offers the client should have destroyed and did not
      are exactly those named by the earlier of two selection events of one kind: it never destroys one. */
  lemma {:induction false} CopyOwesOffers(selector: Name, sel: Selection, bytes: seq<Byte>, mimes: seq<Name>,
                                          oneshot: bool, sends: seq<SendAnswer>, recvs: seq<RecvAnswer>)
    ensures var log := RunPhases(CopyDispatcher(), CopyProgram(selector, sel),
                                 NewMachine(NewCopy(bytes, mimes, oneshot), sends, recvs)).1.log;
            var v := Judge(Fair(NEW_PEER), log);
            v.Fair? ==> forall offer :: offer in v.peer.owed <==> Superseded(log, offer)
  {
    hide Judge, Superseded, RunPhases, NameMatches, PickSeat, Silent, Light;
    CopyIsLight(selector, sel);
    var program := CopyProgram(selector, sel);
    var m := NewMachine(NewCopy(bytes, mimes, oneshot), sends, recvs);
    forall i: nat, objects: Table, nextId: U32, st: CopySession
      | i < |program| && program[i].enter(objects, nextId, st).Entered?
      ensures ArgsGiven(program[i].enter(objects, nextId, st).reqs)
    {
    }
    ProgramGivesArgs(CopyDispatcher(), program, m);
    var log := RunPhases(CopyDispatcher(), program, m).1.log;
    if Judge(Fair(NEW_PEER), log).Fair? {
      LogIsExact(log);
    }
  }

  /** The same for every paste run. */
  lemma {:induction false} PasteOwesOffers(selector: Name, sel: Selection, prefer: Name, listOnly: bool,
                                           pipe: Option<int>, sends: seq<SendAnswer>, recvs: seq<RecvAnswer>)
    ensures var log := RunPhases(PasteDispatcher(), PasteProgram(selector, sel, prefer, listOnly, pipe),
                                 NewMachine(NewPaste(), sends, recvs)).1.log;
            var v := Judge(Fair(NEW_PEER), log);
            v.Fair? ==> forall offer :: offer in v.peer.owed <==> Superseded(log, offer)
  {
    hide Judge, Superseded, RunPhases, NameMatches, PickSeat, Silent, Light, FindOffer, ChooseMime;
    PasteIsLight(selector, sel, prefer, listOnly, pipe);
    var program := PasteProgram(selector, sel, prefer, listOnly, pipe);
    var m := NewMachine(NewPaste(), sends, recvs);
    forall i: nat, objects: Table, nextId: U32, st: PasteSession
      | i < |program| && program[i].enter(objects, nextId, st).Entered?
      ensures ArgsGiven(program[i].enter(objects, nextId, st).reqs)
    {
    }
    ProgramGivesArgs(PasteDispatcher(), program, m);
    var log := RunPhases(PasteDispatcher(), program, m).1.log;
    if Judge(Fair(NEW_PEER), log).Fair? {
      LogIsExact(log);
    }
  }
}
