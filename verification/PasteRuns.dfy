/** What a paste obtains, read off the event trace alone. */
module PasteRuns {
  import opened Bytes
  import opened Wire
  import opened Connections
  import opened Dispatching
  import opened Clients
  import opened Phases
  import Transfer
  import opened Completion
  import opened Mime
  import opened Handcrafted
  import opened SyncBarrier

  /** The id bootstrap leaves for the device. */
  const DEVICE: U32 := 7

  // ---- The trace ----------------------------------------------------------

  datatype ClipEvent =
    | OfferMade(id: U32)
    | OfferMime(id: U32, mime: Name)
    | Selected(sel: Selection, id: U32)
    | Gone
    | Unrelated

  function EventOf(m: Message): ClipEvent {
    if m.id == DEVICE then
      if m.opcode == 0 then OfferMade(Word(m))
      else if m.opcode == 1 then Selected(Regular, Word(m))
      else if m.opcode == 3 then Selected(Primary, Word(m))
      else if m.opcode == 2 then Gone
      else Unrelated
    else if m.id >= SERVER_ID_MIN && m.opcode == 0 then OfferMime(m.id, Text(m))
    else Unrelated
  }

  function EventsOf(ps: seq<Packet>): (evs: seq<ClipEvent>)
    ensures |evs| == |ps|
    ensures forall i | 0 <= i < |ps| :: evs[i] == EventOf(ps[i].msg)
  {
    seq(|ps|, i requires 0 <= i < |ps| => EventOf(ps[i].msg))
  }

  predicate IsTarget(sel: Selection, ev: ClipEvent) {
    ev.Gone? || (ev.Selected? && ev.sel == sel)
  }

  /** Position of the first event that ends the wait for a selection, or the length of the trace. */
  function FirstTarget(sel: Selection, evs: seq<ClipEvent>): (k: nat)
    ensures k <= |evs|
    ensures k < |evs| ==> IsTarget(sel, evs[k])
    ensures forall i | 0 <= i < k :: !IsTarget(sel, evs[i])
  {
    if evs == [] || IsTarget(sel, evs[0]) then 0 else 1 + FirstTarget(sel, evs[1..])
  }

  /** The types announced for id, in order. */
  function MimesFor(evs: seq<ClipEvent>, id: U32): seq<Name> {
    if evs == [] then []
    else (if evs[0].OfferMime? && evs[0].id == id then [evs[0].mime] else []) + MimesFor(evs[1..], id)
  }

  /** The types of the offer id: those announced after the offer itself; None if it was never made. */
  function OfferTale(evs: seq<ClipEvent>, id: U32): Option<seq<Name>> {
    if evs == [] then None
    else if evs[0] == OfferMade(id) then Some(MimesFor(evs[1..], id))
    else OfferTale(evs[1..], id)
  }

  // ---- The dispatcher as a fold over the trace ----------------------------

  function Apply(p: PasteState, ev: ClipEvent): PasteState {
    match ev
    case OfferMade(id) => p.(offers := p.offers + [OfferRec(id, [])])
    case OfferMime(id, mime) => p.(offers := AddMime(p.offers, id, mime))
    case Selected(Regular, id) => p.(currentRegular := id, gotRegular := true)
    case Selected(Primary, id) => p.(currentPrimary := id, gotPrimary := true)
    case Gone => p.(finished := true)
    case Unrelated => p
  }

  function ApplyAll(p: PasteState, evs: seq<ClipEvent>): PasteState
    decreases |evs|
  {
    if evs == [] then p else ApplyAll(Apply(p, evs[0]), evs[1..])
  }

  /** The table while paste waits: the device, the offers made so far, and leftovers of bootstrap. */
  ghost predicate Waiting(objects: Table, st: PasteSession) {
    && KindIn(objects, DEVICE) == Device
    && (forall id | id in objects ::
          && (id < DEVICE ==> objects[id] !in {Device, Source, Offer})
          && (id > DEVICE ==> id >= SERVER_ID_MIN && objects[id] == Offer)
          && (objects[id] == Display ==> id == DISPLAY_ID))
    && (forall id: U32 :: id >= SERVER_ID_MIN ==> (id in objects <==> FindOffer(st.ext.offers, id).Some?))
  }

  /** The compositor names new offers in its own range and deletes neither the device nor an offer. */
  predicate Lawful(p: Packet) {
    && (EventOf(p.msg).OfferMade? ==> EventOf(p.msg).id >= SERVER_ID_MIN)
    && (p.msg.id == DISPLAY_ID && p.msg.opcode == 1 ==> Word(p.msg) < DEVICE)
  }

  ghost predicate LawfulTrace(ps: seq<Packet>) {
    forall p | p in ps :: Lawful(p)
  }

  lemma {:induction false} FindAfterAppend(offers: seq<OfferRec>, r: OfferRec, id: U32)
    ensures FindOffer(offers + [r], id)
         == if FindOffer(offers, id).Some? then FindOffer(offers, id) else if r.id == id then Some(r) else None
    decreases |offers|
  {
    if offers == [] {
      assert offers + [r] == [r] && [r][1..] == [];
    } else {
      assert (offers + [r])[1..] == offers[1..] + [r];
      FindAfterAppend(offers[1..], r, id);
    }
  }

  lemma {:induction false} FindAfterMime(offers: seq<OfferRec>, at: U32, mime: Name, id: U32)
    ensures var was := FindOffer(offers, id);
            FindOffer(AddMime(offers, at, mime), id)
            == if was.Some? && at == id then Some(was.value.(mimes := was.value.mimes + [mime])) else was
    decreases |offers|
  {
    if offers != [] && offers[0].id != at {
      assert ([offers[0]] + AddMime(offers[1..], at, mime))[1..] == AddMime(offers[1..], at, mime);
      FindAfterMime(offers[1..], at, mime, id);
    } else if offers != [] {
      assert ([offers[0].(mimes := offers[0].mimes + [mime])] + offers[1..])[1..] == offers[1..];
    }
  }

  lemma {:induction false} AddMimeNowhere(offers: seq<OfferRec>, id: U32, mime: Name)
    requires FindOffer(offers, id).None?
    ensures AddMime(offers, id, mime) == offers
    decreases |offers|
  {
    if offers != [] {
      AddMimeNowhere(offers[1..], id, mime);
      assert [offers[0]] + offers[1..] == offers;
    }
  }

  /** Dispatching one packet is applying its event. */
  lemma {:induction false} OneEvent(objects: Table, st: PasteSession, p: Packet)
    requires Waiting(objects, st) && Lawful(p)
    ensures var e := PasteHandle(objects, st, p.msg, FdOf(p));
            && e.replies == [] && e.st.ext == Apply(st.ext, EventOf(p.msg)) && Waiting(e.objects, e.st)
  {
    if p.msg.id == DEVICE {
      DeviceEvent(objects, st, p);
    } else if p.msg.id >= SERVER_ID_MIN {
      OfferEvent(objects, st, p);
    } else {
      hide Word, Text, AdvertOf, NoteGlobal, FindOffer, AddMime, OnDevice;
    }
  }

  lemma {:induction false} DeviceEvent(objects: Table, st: PasteSession, p: Packet)
    requires Waiting(objects, st) && Lawful(p) && p.msg.id == DEVICE
    ensures var e := PasteHandle(objects, st, p.msg, FdOf(p));
            && e.replies == [] && e.st.ext == Apply(st.ext, EventOf(p.msg)) && Waiting(e.objects, e.st)
  {
    hide Word, Text, AdvertOf, FindOffer, AddMime;
    var id := Word(p.msg);
    if p.msg.opcode == 0 {
      forall x: U32 ensures FindOffer(st.ext.offers + [OfferRec(id, [])], x).Some? <==>
          FindOffer(st.ext.offers, x).Some? || x == id {
        FindAfterAppend(st.ext.offers, OfferRec(id, []), x);
      }
    }
  }

  lemma {:induction false} OfferEvent(objects: Table, st: PasteSession, p: Packet)
    requires Waiting(objects, st) && p.msg.id >= SERVER_ID_MIN
    ensures var e := PasteHandle(objects, st, p.msg, FdOf(p));
            && e.replies == [] && e.st.ext == Apply(st.ext, EventOf(p.msg)) && Waiting(e.objects, e.st)
  {
    hide Word, Text, AdvertOf, FindOffer, AddMime;
    var mime := Text(p.msg);
    forall x: U32 ensures FindOffer(AddMime(st.ext.offers, p.msg.id, mime), x).Some? <==>
        FindOffer(st.ext.offers, x).Some? {
      FindAfterMime(st.ext.offers, p.msg.id, mime, x);
    }
    if p.msg.id !in objects {
      AddMimeNowhere(st.ext.offers, p.msg.id, mime);
    }
  }

  lemma {:induction false} TargetByEvent(sel: Selection, p: PasteState, ev: ClipEvent)
    requires !HaveTarget(sel, p)
    ensures HaveTarget(sel, Apply(p, ev)) <==> IsTarget(sel, ev)
  {
    hide AddMime;
  }

  /** f is the one-shot reading of ps up to its first target event. */
  ghost predicate ReadToTarget(sel: Selection, p: PasteState, ps: seq<Packet>, f: Folded<PasteSession>) {
    var k := FirstTarget(sel, EventsOf(ps));
    && (f.stopped <==> k < |ps|)
    && f.rest == (if k < |ps| then ps[k + 1..] else [])
    && f.st.ext == ApplyAll(p, EventsOf(ps)[..if k < |ps| then k + 1 else k])
  }

  /** The wait for a selection ends exactly with the first target event, in the state the trace up to and
      including it determines. */
  lemma {:induction false} WaitForTarget(sel: Selection, objects: Table, st: PasteSession, ps: seq<Packet>)
    requires Waiting(objects, st) && LawfulTrace(ps) && !HaveTarget(sel, st.ext)
    ensures ReadToTarget(sel, st.ext, ps, FoldUntil(PasteDispatcher(), TargetSeen(sel), objects, st, ps))
    decreases |ps|
  {
    hide PasteHandle, Waiting, Apply, HaveTarget, Lawful, EventOf, FoldUntil, ReadToTarget;
    if ps == [] {
      NoPackets(sel, objects, st);
    } else {
      var p, rest := ps[0], ps[1..];
      assert p in ps && forall q | q in rest :: q in ps;
      OneEvent(objects, st, p);
      var e := PasteHandle(objects, st, p.msg, FdOf(p));
      OnePacket(sel, objects, st, ps);
      TargetByEvent(sel, st.ext, EventOf(p.msg));
      if IsTarget(sel, EventOf(p.msg)) {
        AlreadyThere(sel, e.objects, e.st, rest);
        TargetAtOnce(sel, st.ext, ps, FoldUntil(PasteDispatcher(), TargetSeen(sel), objects, st, ps));
      } else {
        WaitForTarget(sel, e.objects, e.st, rest);
        TargetLater(sel, st.ext, ps, FoldUntil(PasteDispatcher(), TargetSeen(sel), e.objects, e.st, rest),
                    FoldUntil(PasteDispatcher(), TargetSeen(sel), objects, st, ps));
      }
    }
  }

  lemma {:induction false} TargetAtOnce(sel: Selection, p: PasteState, ps: seq<Packet>, f: Folded<PasteSession>)
    requires ps != [] && IsTarget(sel, EventOf(ps[0].msg))
    requires f.stopped && f.rest == ps[1..] && f.st.ext == Apply(p, EventOf(ps[0].msg))
    ensures ReadToTarget(sel, p, ps, f)
  {
    hide Apply, EventOf, IsTarget;
    var evs := EventsOf(ps);
    assert FirstTarget(sel, evs) == 0;
    ApplyFirst(p, evs, 1);
    ApplyNothing(f.st.ext, evs);
  }

  lemma {:induction false} TargetLater(sel: Selection, p: PasteState, ps: seq<Packet>, f: Folded<PasteSession>,
                                       g: Folded<PasteSession>)
    requires ps != [] && !IsTarget(sel, EventOf(ps[0].msg))
    requires ReadToTarget(sel, Apply(p, EventOf(ps[0].msg)), ps[1..], f)
    requires g.stopped == f.stopped && g.rest == f.rest && g.st == f.st
    ensures ReadToTarget(sel, p, ps, g)
  {
    hide Apply, EventOf, IsTarget, ApplyAll;
    var evs, rest := EventsOf(ps), ps[1..];
    assert evs[1..] == EventsOf(rest);
    var k := FirstTarget(sel, evs);
    assert k == 1 + FirstTarget(sel, EventsOf(rest));
    var n := if k < |ps| then k + 1 else k;
    ApplyFirst(p, evs, n);
    if k < |ps| {
      assert rest[k..] == ps[k + 1..];
    }
  }

  lemma {:induction false} NoPackets(sel: Selection, objects: Table, st: PasteSession)
    requires !HaveTarget(sel, st.ext)
    ensures ReadToTarget(sel, st.ext, [], FoldUntil(PasteDispatcher(), TargetSeen(sel), objects, st, []))
  {
    hide HaveTarget;
    assert EventsOf([])[..0] == [];
  }

  lemma {:induction false} OnePacket(sel: Selection, objects: Table, st: PasteSession, ps: seq<Packet>)
    requires !HaveTarget(sel, st.ext) && ps != []
    ensures var e := PasteHandle(objects, st, ps[0].msg, FdOf(ps[0]));
            var f := FoldUntil(PasteDispatcher(), TargetSeen(sel), e.objects, e.st, ps[1..]);
            var g := FoldUntil(PasteDispatcher(), TargetSeen(sel), objects, st, ps);
            g.stopped == f.stopped && g.rest == f.rest && g.st == f.st && g.objects == f.objects
  {
    hide HaveTarget, PasteHandle;
    assert PasteDispatcher().handle(objects, st, ps[0].msg, FdOf(ps[0]))
           == PasteHandle(objects, st, ps[0].msg, FdOf(ps[0]));
  }

  lemma {:induction false} AlreadyThere(sel: Selection, objects: Table, st: PasteSession, ps: seq<Packet>)
    requires HaveTarget(sel, st.ext)
    ensures FoldUntil(PasteDispatcher(), TargetSeen(sel), objects, st, ps) == Folded(true, objects, st, ps, [])
  {
    hide HaveTarget;
  }

  lemma {:induction false} ApplyFirst(p: PasteState, evs: seq<ClipEvent>, n: nat)
    requires 1 <= n <= |evs|
    ensures ApplyAll(p, evs[..n]) == ApplyAll(Apply(p, evs[0]), evs[1..][..n - 1])
  {
    hide Apply;
    assert evs[..n][1..] == evs[1..][..n - 1];
  }

  lemma {:induction false} ApplyNothing(p: PasteState, evs: seq<ClipEvent>)
    requires evs != []
    ensures ApplyAll(p, evs[1..][..0]) == p
  {
    hide Apply;
  }

  // ---- What the final state says about the trace --------------------------

  lemma {:induction false} MimesForSnoc(evs: seq<ClipEvent>, ev: ClipEvent, id: U32)
    ensures MimesFor(evs + [ev], id) == MimesFor(evs, id) + (if ev.OfferMime? && ev.id == id then [ev.mime] else [])
    decreases |evs|
  {
    if evs == [] {
      assert evs + [ev] == [ev] && [ev][1..] == [];
    } else {
      assert (evs + [ev])[1..] == evs[1..] + [ev];
      MimesForSnoc(evs[1..], ev, id);
    }
  }

  lemma {:induction false} OfferTaleSnoc(evs: seq<ClipEvent>, ev: ClipEvent, id: U32)
    ensures var was := OfferTale(evs, id);
            OfferTale(evs + [ev], id)
            == if was.None? then (if ev == OfferMade(id) then Some([]) else None)
               else if ev.OfferMime? && ev.id == id then Some(was.value + [ev.mime])
               else was
    decreases |evs|
  {
    hide MimesFor;
    if evs == [] {
      assert evs + [ev] == [ev] && [ev][1..] == [];
      assert MimesFor([], id) == [] by { NoMimes(id); }
    } else {
      assert (evs + [ev])[1..] == evs[1..] + [ev];
      if evs[0] == OfferMade(id) {
        MimesForSnoc(evs[1..], ev, id);
        assert MimesFor(evs[1..], id) + [] == MimesFor(evs[1..], id);
      } else {
        OfferTaleSnoc(evs[1..], ev, id);
      }
    }
  }

  lemma {:induction false} NoMimes(id: U32)
    ensures MimesFor([], id) == []
  {
  }

  lemma {:induction false} ApplyAllSnoc(p: PasteState, evs: seq<ClipEvent>, ev: ClipEvent)
    ensures ApplyAll(p, evs + [ev]) == Apply(ApplyAll(p, evs), ev)
    decreases |evs|
  {
    hide Apply;
    if evs == [] {
      assert evs + [ev] == [ev] && [ev][1..] == [];
    } else {
      assert (evs + [ev])[1..] == evs[1..] + [ev];
      ApplyAllSnoc(Apply(p, evs[0]), evs[1..], ev);
    }
  }

  /** The record the client finds for an offer is the offer's tale: made or not, and its types in order. */
  lemma {:induction false} RecordIsTale(p: PasteState, evs: seq<ClipEvent>, id: U32)
    requires p.offers == []
    ensures var found := FindOffer(ApplyAll(p, evs).offers, id);
            var tale := OfferTale(evs, id);
            if tale.None? then found.None? else found == Some(OfferRec(id, tale.value))
    decreases |evs|
  {
    hide FindOffer, OfferTale, AddMime;
    if evs == [] {
      assert FindOffer([], id).None? && OfferTale([], id).None? by { NothingMade(id); }
    } else {
      var init, last := evs[..|evs| - 1], evs[|evs| - 1];
      assert evs == init + [last];
      RecordIsTale(p, init, id);
      ApplyAllSnoc(p, init, last);
      OfferTaleSnoc(init, last, id);
      var was := ApplyAll(p, init);
      match last
      case OfferMade(x) => FindAfterAppend(was.offers, OfferRec(x, []), id);
      case OfferMime(x, mime) => FindAfterMime(was.offers, x, mime, id);
      case _ =>
    }
  }

  lemma {:induction false} NothingMade(id: U32)
    ensures FindOffer([], id).None? && OfferTale([], id).None?
  {
  }

  /** Before the first target event the current selection of that kind is still unset; a selection sets it. */
  lemma {:induction false} CurrentUntilTarget(sel: Selection, p: PasteState, evs: seq<ClipEvent>)
    requires Current(sel, p) == 0 && forall i | 0 <= i < |evs| :: !IsTarget(sel, evs[i])
    ensures Current(sel, ApplyAll(p, evs)) == 0
    decreases |evs|
  {
    hide AddMime;
    if evs != [] {
      assert !IsTarget(sel, evs[0]);
      CurrentUntilTarget(sel, Apply(p, evs[0]), evs[1..]);
    }
  }

  // ---- Whole paste runs ---------------------------------------------------

  /** The offer the first target event of the trace selects: its types in order; None if the trace has no such
      event, if it is `finished`, if nothing is selected, or if the offer was never made. */
  function SelectedTypes(sel: Selection, evs: seq<ClipEvent>): Option<seq<Name>> {
    var k := FirstTarget(sel, evs);
    if k < |evs| && evs[k].Selected? && evs[k].id != 0 then OfferTale(evs[..k], evs[k].id) else None
  }

  /** A type can be had from these: only a listing was asked for, or one is chosen and there is a pipe for it. */
  predicate Obtainable(mimes: seq<Name>, prefer: Name, listOnly: bool, pipe: Option<int>) {
    listOnly || (ChooseMime(mimes, prefer) != [] && pipe.Some?)
  }

  /** The result fields a paste leaves when these types were listed. */
  ghost predicate Pasted(mimes: seq<Name>, prefer: Name, listOnly: bool, st: PasteSession) {
    st.ext.available == mimes && st.ext.mime == if listOnly then [] else ChooseMime(mimes, prefer)
  }

  /** The state after the wait, as the last phase looks at it. */
  lemma {:induction false} TargetState(sel: Selection, p: PasteState, evs: seq<ClipEvent>)
    requires p.offers == [] && Current(sel, p) == 0
    requires FirstTarget(sel, evs) < |evs|
    ensures var q := ApplyAll(p, evs[..FirstTarget(sel, evs) + 1]);
            var id := Current(sel, q);
            match SelectedTypes(sel, evs)
            case None => id == 0 || FindOffer(q.offers, id).None?
            case Some(mimes) =>
              && id != 0 && evs[FirstTarget(sel, evs)] == Selected(sel, id)
              && FindOffer(q.offers, id) == Some(OfferRec(id, mimes))
    ensures var q := ApplyAll(p, evs[..FirstTarget(sel, evs) + 1]);
            q.available == p.available && q.mime == p.mime
  {
    hide ApplyAll, FindOffer, OfferTale, AddMime;
    var k := FirstTarget(sel, evs);
    var init := evs[..k];
    assert evs[..k + 1] == init + [evs[k]];
    ApplyAllSnoc(p, init, evs[k]);
    CurrentUntilTarget(sel, p, init);
    KeepsResult(p, evs[..k + 1]);
    if evs[k].Selected? {
      RecordIsTale(p, init, evs[k].id);
    }
  }

  lemma {:induction false} KeepsResult(p: PasteState, evs: seq<ClipEvent>)
    ensures ApplyAll(p, evs).available == p.available && ApplyAll(p, evs).mime == p.mime
    decreases |evs|
  {
    hide AddMime;
    if evs != [] {
      KeepsResult(Apply(p, evs[0]), evs[1..]);
    }
  }

  /** The last two phases, after any bootstrap. */
  lemma {:induction false} ChooseStory(selector: Name, sel: Selection, prefer: Name, listOnly: bool, pipe: Option<int>,
                                       objects: Table, st: PasteSession, ps: seq<Packet>)
    requires BootedTable(objects)
    requires st.ext == NewPaste().ext && LawfulTrace(ps)
    ensures var program := [PastePhase(selector, sel), ReceivePhase(sel, prefer, listOnly, pipe)];
            var s := FoldPhases(PasteDispatcher(), program, objects, DEVICE, st, ps);
            var mimes := SelectedTypes(sel, EventsOf(ps));
            && (s.status.Completed? <==>
                  && NameMatches(selector, st.seatName) && (sel.Primary? ==> st.managerVersion >= 2)
                  && mimes.Some? && Obtainable(mimes.value, prefer, listOnly, pipe))
            && Pasted(if NameMatches(selector, st.seatName) && (sel.Primary? ==> st.managerVersion >= 2) && mimes.Some?
                      then mimes.value else [], prefer, listOnly, s.st)
  {
    hide FoldPhase, FoldPhases, NameMatches, ChooseMime, FindOffer, SelectedTypes, LawfulTrace;
    var a, b := PastePhase(selector, sel), ReceivePhase(sel, prefer, listOnly, pipe);
    TwoStories(PasteDispatcher(), a, b, objects, DEVICE, st, ps);
    WaitStory(selector, sel, objects, st, ps);
    var s := FoldPhase(PasteDispatcher(), a, objects, DEVICE, st, ps);
    if s.status.Completed? {
      TargetState(sel, st.ext, EventsOf(ps));
      ReceiveStory(sel, prefer, listOnly, pipe, s.objects, s.nextId, s.st, s.rest);
      if SelectedTypes(sel, EventsOf(ps)).None? {
        NothingPasted(prefer, listOnly, FoldPhases(PasteDispatcher(), [a, b], objects, DEVICE, st, ps).st);
      }
    } else {
      NoSelection(sel, EventsOf(ps));
      NothingPasted(prefer, listOnly, s.st);
    }
  }

  lemma {:induction false} NoSelection(sel: Selection, evs: seq<ClipEvent>)
    ensures FirstTarget(sel, evs) == |evs| ==> SelectedTypes(sel, evs).None?
  {
  }

  lemma {:induction false} WaitStory(selector: Name, sel: Selection, objects: Table, st: PasteSession, ps: seq<Packet>)
    requires BootedTable(objects)
    requires st.ext == NewPaste().ext && LawfulTrace(ps)
    ensures var s := FoldPhase(PasteDispatcher(), PastePhase(selector, sel), objects, DEVICE, st, ps);
            var k := FirstTarget(sel, EventsOf(ps));
            && (s.status.Completed? <==>
                  NameMatches(selector, st.seatName) && (sel.Primary? ==> st.managerVersion >= 2) && k < |ps|)
            && (s.status.Completed? ==> s.st.ext == ApplyAll(st.ext, EventsOf(ps)[..k + 1]))
            && s.st.ext.available == [] && s.st.ext.mime == []
  {
    hide FoldUntil, NameMatches, FindOffer, LawfulTrace, ApplyAll, FirstTarget;
    var e := EnterPaste(selector, sel, objects, DEVICE, st);
    if e.Entered? {
      assert forall id: U32 :: FindOffer([], id).None? by {
        forall id: U32 ensures FindOffer([], id).None? { NothingMade(id); }
      }
      assert Waiting(e.objects, e.st);
      WaitForTarget(sel, e.objects, e.st, ps);
      var k := FirstTarget(sel, EventsOf(ps));
      KeepsResult(st.ext, EventsOf(ps)[..if k < |ps| then k + 1 else k]);
    }
  }

  lemma {:induction false} ReceiveStory(sel: Selection, prefer: Name, listOnly: bool, pipe: Option<int>,
                                        objects: Table, nextId: U32, st: PasteSession, ps: seq<Packet>)
    ensures var s := FoldPhase(PasteDispatcher(), ReceivePhase(sel, prefer, listOnly, pipe), objects, nextId, st, ps);
            var id := Current(sel, st.ext);
            var rec := FindOffer(st.ext.offers, id);
            && (s.status.Completed? <==> id != 0 && rec.Some? && Obtainable(rec.value.mimes, prefer, listOnly, pipe))
            && s.st.ext.available == (if id != 0 && rec.Some? then rec.value.mimes else st.ext.available)
            && s.st.ext.mime == if id == 0 || rec.None? || listOnly || ChooseMime(rec.value.mimes, prefer) == []
                                then st.ext.mime else ChooseMime(rec.value.mimes, prefer)
  {
    hide FindOffer, ChooseMime;
  }

  /** Whether a paste that reads these packets to the end of what it waits for succeeds. */
  ghost predicate PasteSucceeds(selector: Name, sel: Selection, prefer: Name, listOnly: bool, pipe: Option<int>,
                                ps: seq<Packet>) {
    var mimes := SelectedTypes(sel, EventsOf(BarriersOf(ps).rest));
    Reaches(selector, sel, ps) && mimes.Some? && Obtainable(mimes.value, prefer, listOnly, pipe)
  }

  /** The types such a paste lists, whether or not it then succeeds. */
  ghost function Listed(selector: Name, sel: Selection, ps: seq<Packet>): seq<Name> {
    var mimes := SelectedTypes(sel, EventsOf(BarriersOf(ps).rest));
    if Reaches(selector, sel, ps) && mimes.Some? then mimes.value else []
  }

  lemma {:induction false} PasteStory(selector: Name, sel: Selection, prefer: Name, listOnly: bool, pipe: Option<int>,
                                      ps: seq<Packet>)
    requires BootSpared(BarriersOf(ps)) && LawfulTrace(BarriersOf(ps).rest)
    ensures var s := FoldPhases(PasteDispatcher(), PasteProgram(selector, sel, prefer, listOnly, pipe),
                                map[DISPLAY_ID := Display], CLIENT_ID_MIN, NewPaste(), ps);
            && (s.status.Completed? <==> PasteSucceeds(selector, sel, prefer, listOnly, pipe, ps))
            && Pasted(Listed(selector, sel, ps), prefer, listOnly, s.st)
  {
    hide FoldPhases, BarriersOf, BootSpared, SelectedTypes, Bootstrap, PastePhase, ReceivePhase, PickSeat, NameMatches,
      LawfulTrace, Obtainable, Pasted, GlobalsIn, NameIn, BootRequests;
    var h := PasteDispatcher();
    PasteActsCommon();
    BootstrapStory(h, NewPaste().ext, selector, ps);
    StoriesConcat(h, Bootstrap<PasteState>(selector),
                  [PastePhase(selector, sel), ReceivePhase(sel, prefer, listOnly, pipe)],
                  map[DISPLAY_ID := Display], CLIENT_ID_MIN, NewPaste(), ps);
    var s := FoldPhases(h, Bootstrap<PasteState>(selector), map[DISPLAY_ID := Display], CLIENT_ID_MIN, NewPaste(), ps);
    if s.status.Completed? {
      ChooseStory(selector, sel, prefer, listOnly, pipe, s.objects, s.st, s.rest);
    } else {
      NothingPasted(prefer, listOnly, s.st);
    }
  }

  lemma {:induction false} NothingPasted(prefer: Name, listOnly: bool, st: PasteSession)
    ensures Pasted([], prefer, listOnly, st) <==> st.ext.available == [] && st.ext.mime == []
  {
  }

  lemma {:induction false} PasteIsLight(selector: Name, sel: Selection, prefer: Name, listOnly: bool, pipe: Option<int>)
    ensures Silent(PasteDispatcher()) && Light(PasteProgram(selector, sel, prefer, listOnly, pipe))
  {
    hide NoteGlobal, AdvertOf, OnDevice, AddMime, FindOffer, Word, Text, NameMatches, PickSeat, ChooseMime,
      EncodeRequests;
    forall id: U32, mime: Name ensures EncodeRequests([Receive(id, mime)]) != [] {
      EncodeOneRequest(Receive(id, mime));
      EncodedLength(MessageOf(Receive(id, mime)));
    }
  }

  /** Every paste run over a faithful stream, however chunked: if it is not cut off, successful or not, `available` is
      exactly the list, in order, of the types announced for the offer that the first selection event of the requested
      kind names (counting from the second barrier), [] if it does not get there, and the type asked for is the
      preferred one among them. Such a run completes exactly when the packets alone say so, and one that gets the
      whole stream exactly when they do and the kernel takes what its waits flush. */
  lemma {:induction false} PasteReturns(selector: Name, sel: Selection, prefer: Name, listOnly: bool,
                                        pipe: Option<int>, sends: seq<SendAnswer>, recvs: seq<RecvAnswer>,
                                        ps: seq<Packet>)
    requires Faithful(ps, Queues([], [], [], []), recvs)
    requires MatchedPhases(PasteDispatcher(), PasteProgram(selector, sel, prefer, listOnly, pipe),
                           map[DISPLAY_ID := Display], CLIENT_ID_MIN, NewPaste(), ps)
    requires BootSpared(BarriersOf(ps)) && LawfulTrace(BarriersOf(ps).rest)
    ensures var m := NewMachine(NewPaste(), sends, recvs);
            var program := PasteProgram(selector, sel, prefer, listOnly, pipe);
            var (status, r) := RunPhases(PasteDispatcher(), program, m);
            && (!status.Lost? ==> (status.Completed? <==> PasteSucceeds(selector, sel, prefer, listOnly, pipe, ps)))
            && (Whole(ps, m.q, m.recvs) ==>
                  (status.Completed? <==>
                     && PasteSucceeds(selector, sel, prefer, listOnly, pipe, ps)
                     && PhasesFlow(PasteDispatcher(), program, m)))
            && (!status.Lost? ==> Pasted(Listed(selector, sel, ps), prefer, listOnly, r.st))
  {
    hide RunPhases, FoldPhases, MatchedPhases, BarriersOf, BootSpared, Faithful, PasteProgram, LawfulTrace, Pasted,
      SelectedTypes, Obtainable, NameMatches, PasteSucceeds, Listed, Whole, PhasesFlow;
    var m := NewMachine(NewPaste(), sends, recvs);
    var program := PasteProgram(selector, sel, prefer, listOnly, pipe);
    PasteStory(selector, sel, prefer, listOnly, pipe, ps);
    PhasesTransport(PasteDispatcher(), program, m, ps);
    if Whole(ps, m.q, m.recvs) {
      PhasesComplete(PasteDispatcher(), program, m, ps);
    }
  }

  // ---- The end of a paste -------------------------------------------------

  /** Everything of a paste before it asks for the data. */
  function UntilSelection(selector: Name, sel: Selection): seq<Phase<PasteSession>> {
    Bootstrap(selector) + [PastePhase(selector, sel)]
  }

  lemma {:induction false} UntilSelectionQueuesNoFds(selector: Name, sel: Selection, m: Machine<PasteSession>)
    requires m.q.outFds == []
    ensures RunPhases(PasteDispatcher(), UntilSelection(selector, sel), m).1.q.outFds == []
  {
    hide RunPhases, NameMatches, PickSeat, Silent, Light;
    PasteIsLight(selector, sel, [], true, None);
    var program := UntilSelection(selector, sel);
    forall i: nat, objects: Table, nextId: U32, st: PasteSession
      | i < |program| && program[i].enter(objects, nextId, st).Entered?
      ensures program[i].enter(objects, nextId, st).fds == []
    {
    }
    PhasesQueueNoFds(PasteDispatcher(), program, m);
  }

  /** The flush that should ship the pipe's write end is not looked at. In every run that asks for the data, whatever
      socket and compositor do, that end is still queued, and so open, when paste starts to drain, exactly when the
      kernel's next answer to a send, interruptions apart, is a failure. */
  lemma {:induction false} WriteEndKeptIff(selector: Name, sel: Selection, prefer: Name, w: int,
                                           sends: seq<SendAnswer>, recvs: seq<RecvAnswer>)
    ensures var m := NewMachine(NewPaste(), sends, recvs);
            var (_, b) := RunPhases(PasteDispatcher(), UntilSelection(selector, sel), m);
            var (status, r) := RunPhases(PasteDispatcher(), PasteProgram(selector, sel, prefer, false, Some(w)), m);
            status.Completed? ==>
              && r.q.outFds == (if Ships(b.sends) then [] else [w])
              && (r.q.outBuf == [] ==> r.q.outFds == [])
  {
    hide RunPhases, RunPhase, PastePhase, Bootstrap, Run;
    var h, m := PasteDispatcher(), NewMachine(NewPaste(), sends, recvs);
    var a, p := UntilSelection(selector, sel), ReceivePhase(sel, prefer, false, Some(w));
    assert PasteProgram(selector, sel, prefer, false, Some(w)) == a + [p];
    UntilSelectionQueuesNoFds(selector, sel, m);
    PhasesConcat(h, a, [p], m);
    var (before, b) := RunPhases(h, a, m);
    if before.Completed? {
      OnePhase(h, p, b);
      AskingKeepsIff(sel, prefer, w, b);
    }
  }

  lemma {:induction false} AskingKeepsIff(sel: Selection, prefer: Name, w: int, b: Machine<PasteSession>)
    requires b.q.outFds == []
    ensures var (status, r) := RunPhase(PasteDispatcher(), ReceivePhase(sel, prefer, false, Some(w)), b);
            status.Completed? ==>
              && r.q.outFds == (if Ships(b.sends) then [] else [w])
              && (r.q.outBuf == [] ==> r.q.outFds == [])
  {
    hide FlushRun, FindOffer, ChooseMime, EncodeRequests;
    var e := EnterReceive(sel, prefer, false, Some(w), b.objects, b.nextId, b.st);
    if e.Entered? {
      var queued := Posted(b.(objects := e.objects, nextId := e.nextId, st := e.st), e.reqs, e.fds);
      EncodeOneRequest(e.reqs[0]);
      EncodedLength(MessageOf(e.reqs[0]));
      assert queued.q.outBuf != [] && queued.q.outFds == [w];
      NothingSentIff(queued.q.outBuf, [w], b.sends);
      FdsRideOnFirstSend(queued.q.outBuf, [w], b.sends);
      FlushConserves(queued.q.outBuf, [w], b.sends);
    }
  }

  /** The consequence: some scheduling of the transfer lets paste see the end of the file exactly if that send
      succeeds. */
  lemma {:induction false} PasteEndsIffShipped(selector: Name, sel: Selection, prefer: Name, w: int,
                                               sends: seq<SendAnswer>, recvs: seq<RecvAnswer>, payload: seq<Byte>,
                                               capacity: nat)
    requires capacity > 0
    requires RunPhases(PasteDispatcher(), PasteProgram(selector, sel, prefer, false, Some(w)),
                       NewMachine(NewPaste(), sends, recvs)).0.Completed?
    ensures var m := NewMachine(NewPaste(), sends, recvs);
            var b := RunPhases(PasteDispatcher(), UntilSelection(selector, sel), m).1;
            var r := RunPhases(PasteDispatcher(), PasteProgram(selector, sel, prefer, false, Some(w)), m).1;
            var start := Transfer.Start(payload, w in r.q.outFds);
            (exists turns :: Transfer.TakeAll(start, capacity, turns).reader.AtEof?) <==> Ships(b.sends)
  {
    hide RunPhases, Ships;
    WriteEndKeptIff(selector, sel, prefer, w, sends, recvs);
    var m := NewMachine(NewPaste(), sends, recvs);
    var r := RunPhases(PasteDispatcher(), PasteProgram(selector, sel, prefer, false, Some(w)), m).1;
    var start := Transfer.Start(payload, w in r.q.outFds);
    if Ships(RunPhases(PasteDispatcher(), UntilSelection(selector, sel), m).1.sends) {
      Transfer.StartSound(payload, capacity, false);
      var turns := Transfer.CanAlwaysDeliver(payload, capacity, start);
      assert Transfer.TakeAll(start, capacity, turns).reader.AtEof?;
    } else {
      forall turns ensures !Transfer.TakeAll(start, capacity, turns).reader.AtEof? {
        Transfer.HeldPipeNeverEnds(payload, capacity, turns);
      }
    }
  }
}
