/** What the two sync round trips of bootstrap guarantee. */
module SyncBarrier {
  import opened Bytes
  import opened Wire
  import opened Dispatching
  import opened Phases
  import opened Mime
  import opened Handcrafted

  // ---- Reading a packet list, without any client state --------------------

  predicate IsDone(p: Packet, callback: U32) {
    p.msg.id == callback && p.msg.opcode == 0
  }

  predicate Deletes(p: Packet, id: U32) {
    p.msg.id == DISPLAY_ID && p.msg.opcode == 1 && Word(p.msg) == id
  }

  /** The compositor does not delete any of these objects of the client. */
  ghost predicate Spared(ps: seq<Packet>, ids: set<U32>) {
    forall p, id | p in ps && id in ids :: !Deletes(p, id)
  }

  /** Position of the first `done` of a callback, or the length of the list. */
  function FirstDone(ps: seq<Packet>, callback: U32): (k: nat)
    ensures k <= |ps|
    ensures k < |ps| ==> IsDone(ps[k], callback)
    ensures forall i | 0 <= i < k :: !IsDone(ps[i], callback)
  {
    if ps == [] || IsDone(ps[0], callback) then 0 else 1 + FirstDone(ps[1..], callback)
  }

  /** The globals with the given interface that the registry advertised, in order. */
  function GlobalsIn(ps: seq<Packet>, registry: U32, interface: Name): seq<Global> {
    if ps == [] then []
    else
      var m := ps[0].msg;
      (if m.id == registry && m.opcode == 0 && AdvertOf(m).interface == interface then [AdvertOf(m).global]
       else [])
      + GlobalsIn(ps[1..], registry, interface)
  }

  /** The last name the seat announced, or the one known before. */
  function NameIn(ps: seq<Packet>, seat: U32, known: Name): Name {
    if ps == [] then known
    else
      var m := ps[0].msg;
      NameIn(ps[1..], seat, if m.id == seat && m.opcode == 1 then Text(m) else known)
  }

  // ---- One wait -----------------------------------------------------------

  /** On objects without clipboard kinds the dispatcher is handle_common. */
  ghost predicate ActsCommon<X(!new)>(h: Handler<Session<X>>) {
    forall objects: Table, st: Session<X>, m: Message, fd: int {:trigger h.handle(objects, st, m, fd)} ::
      KindIn(objects, m.id) !in {Device, Source, Offer} ==> h.handle(objects, st, m, fd) == HandleCommon(objects, st, m)
  }

  /** The table while bootstrap waits: one registry, at most one seat, the awaited callback, no clipboard objects. */
  ghost predicate BootTable<X>(objects: Table, st: Session<X>) {
    && KindIn(objects, st.g.registryId) == Registry
    && KindIn(objects, st.g.syncCbId) == Callback
    && forall id | id in objects ::
         && objects[id] !in {Device, Source, Offer}
         && (objects[id] == Display ==> id == DISPLAY_ID)
         && (objects[id] == Registry ==> id == st.g.registryId)
         && (objects[id] == Seat ==> id == st.seatId)
  }

  /** The objects the wait depends on. */
  function Needed<X>(objects: Table, st: Session<X>): set<U32> {
    {st.g.registryId, st.g.syncCbId} + (if KindIn(objects, st.seatId) == Seat then {st.seatId} else {})
  }

  /** The session after a wait that saw these packets before its callback's done. */
  function SessionAfter<X>(st: Session<X>, seen: seq<Packet>, hasSeat: bool, reached: bool): Session<X> {
    st.(g := st.g.(syncDone := reached,
                   seats := st.g.seats + GlobalsIn(seen, st.g.registryId, IF_SEAT),
                   managers := st.g.managers + GlobalsIn(seen, st.g.registryId, IF_MANAGER)),
        seatName := if hasSeat then NameIn(seen, st.seatId, st.seatName) else st.seatName)
  }

  ghost predicate Shrunk(objects: Table, objects': Table, kept: set<U32>) {
    && (forall id | id in objects' :: id in objects && objects'[id] == objects[id])
    && (forall id | id in kept && id in objects :: id in objects')
  }

  /** Handling one message that is not the awaited done. */
  lemma {:induction false} OneCommonEvent<X>(objects: Table, st: Session<X>, p: Packet)
    requires BootTable(objects, st) && !st.g.syncDone && !IsDone(p, st.g.syncCbId)
    requires Spared([p], Needed(objects, st))
    ensures var e := HandleCommon(objects, st, p.msg);
            && e.replies == [] && BootTable(e.objects, e.st)
            && e.st == SessionAfter(st, [p], KindIn(objects, st.seatId) == Seat, false)
            && Shrunk(objects, e.objects, Needed(objects, st)) && Needed(e.objects, e.st) == Needed(objects, st)
  {
    hide AdvertOf, Word, Text, IF_MANAGER, IF_SEAT;
    InterfacesDiffer();
    assert p in [p];
    assert [p][1..] == [];
    var a := AdvertOf(p.msg);
    assert GlobalsIn([p], st.g.registryId, IF_SEAT)
        == (if p.msg.id == st.g.registryId && p.msg.opcode == 0 && a.interface == IF_SEAT then [a.global]
            else []);
    assert GlobalsIn([p], st.g.registryId, IF_MANAGER)
        == (if p.msg.id == st.g.registryId && p.msg.opcode == 0 && a.interface == IF_MANAGER then [a.global]
            else []);
    assert st.g.seats + [] == st.g.seats && st.g.managers + [] == st.g.managers;
    NameOfOne(p, st.seatId, st.seatName);
    assert Word(p.msg) in Needed(objects, st) ==> !Deletes(p, Word(p.msg));
  }

  lemma {:induction false} NameOfOne(p: Packet, seat: U32, known: Name)
    ensures NameIn([p], seat, known) == if p.msg.id == seat && p.msg.opcode == 1 then Text(p.msg) else known
  {
    hide Text;
    assert [p][1..] == [];
  }

  lemma {:induction false} InterfacesDiffer()
    ensures IF_SEAT != IF_MANAGER
  {
    assert |IF_SEAT| != |IF_MANAGER|;
  }

  lemma {:induction false} SessionAfterCons<X>(st: Session<X>, p: Packet, seen: seq<Packet>, hasSeat: bool,
                                               reached: bool)
    ensures SessionAfter(SessionAfter(st, [p], hasSeat, false), seen, hasSeat, reached)
         == SessionAfter(st, [p] + seen, hasSeat, reached)
  {
    hide AdvertOf, Word, Text, IF_MANAGER, IF_SEAT;
    assert ([p] + seen)[1..] == seen && [p][1..] == [];
    NameOfOne(p, st.seatId, st.seatName);
    GlobalsCons(p, seen, st.g.registryId, IF_SEAT);
    GlobalsCons(p, seen, st.g.registryId, IF_MANAGER);
    Assoc(st.g.seats, GlobalsIn([p], st.g.registryId, IF_SEAT), GlobalsIn(seen, st.g.registryId, IF_SEAT));
    Assoc(st.g.managers, GlobalsIn([p], st.g.registryId, IF_MANAGER), GlobalsIn(seen, st.g.registryId, IF_MANAGER));
  }

  lemma {:induction false} GlobalsCons(p: Packet, ps: seq<Packet>, registry: U32, interface: Name)
    ensures GlobalsIn([p] + ps, registry, interface)
            == GlobalsIn([p], registry, interface) + GlobalsIn(ps, registry, interface)
  {
    hide AdvertOf;
    assert ([p] + ps)[1..] == ps && [p][1..] == [];
  }

  /** A wait ends exactly at the first `done` of its own callback; by then every earlier packet, and no later
      one, has taken effect: the globals are those advertised before it, the seat name the last one before it. */
  lemma {:induction false} WaitForSync<X(!new)>(h: Handler<Session<X>>, objects: Table, st: Session<X>, ps: seq<Packet>)
    requires ActsCommon(h) && BootTable(objects, st) && !st.g.syncDone
    requires Spared(ps[..FirstDone(ps, st.g.syncCbId)], Needed(objects, st))
    ensures var k := FirstDone(ps, st.g.syncCbId);
            var f := FoldUntil(h, SyncDone(), objects, st, ps);
            && (f.stopped <==> k < |ps|)
            && f.rest == (if k < |ps| then ps[k + 1..] else [])
            && f.st == SessionAfter(st, ps[..k], KindIn(objects, st.seatId) == Seat, k < |ps|)
            && Shrunk(objects, f.objects, Needed(objects, st))
            && Requests(f.log) == []
    decreases |ps|
  {
    hide AdvertOf, Word, Text, HandleCommon, SessionAfter, Deletes, BootTable, Needed, Shrunk;
    var k := FirstDone(ps, st.g.syncCbId);
    if ps == [] {
      NothingSeen(objects, st);
    } else if IsDone(ps[0], st.g.syncCbId) {
      DoneArrives(h, objects, st, ps);
    } else {
      var p, rest := ps[0], ps[1..];
      var seen := ps[..k];
      assert seen == [p] + rest[..k - 1];
      assert Spared([p], Needed(objects, st)) && Spared(rest[..k - 1], Needed(objects, st)) by {
        assert forall q | q in [p] :: q in seen;
        assert forall q | q in rest[..k - 1] :: q in seen;
      }
      OneCommonEvent(objects, st, p);
      var e := HandleCommon(objects, st, p.msg);
      NotClipboard(objects, st, p.msg.id);
      assert h.handle(objects, st, p.msg, FdOf(p)) == e;
      StaysInWait(objects, st, e.objects, e.st, p);
      WaitForSync(h, e.objects, e.st, rest);
      SessionAfterCons(st, p, rest[..k - 1], KindIn(objects, st.seatId) == Seat, k < |ps|);
      var f := FoldUntil(h, SyncDone(), e.objects, e.st, rest);
      ShrunkTwice(objects, e.objects, f.objects, Needed(objects, st));
      EventOnly(p, f.log);
      assert k < |ps| ==> rest[k..] == ps[k + 1..];
    }
  }

  lemma {:induction false} NotClipboard<X>(objects: Table, st: Session<X>, id: U32)
    requires BootTable(objects, st)
    ensures KindIn(objects, id) !in {Device, Source, Offer}
  {
  }

  lemma {:induction false} StaysInWait<X>(objects: Table, st: Session<X>, objects': Table, st': Session<X>, p: Packet)
    requires BootTable(objects, st) && Shrunk(objects, objects', Needed(objects, st))
    requires st' == SessionAfter(st, [p], KindIn(objects, st.seatId) == Seat, false)
    ensures !st'.g.syncDone && st'.g.syncCbId == st.g.syncCbId && st'.seatId == st.seatId
    ensures KindIn(objects', st'.seatId) == Seat <==> KindIn(objects, st.seatId) == Seat
  {
    hide GlobalsIn, NameIn;
  }

  lemma {:induction false} ShrunkTwice(a: Table, b: Table, c: Table, kept: set<U32>)
    requires Shrunk(a, b, kept) && Shrunk(b, c, kept)
    ensures Shrunk(a, c, kept)
  {
  }

  lemma {:induction false} EventOnly(p: Packet, log: seq<LogItem>)
    ensures Requests([Event(p.msg, FdOf(p))] + QueuedItems([]) + log) == Requests(log)
  {
    assert [Event(p.msg, FdOf(p))] + QueuedItems([]) + log == [Event(p.msg, FdOf(p))] + log;
    assert ([Event(p.msg, FdOf(p))] + log)[1..] == log;
  }

  lemma {:induction false} NothingSeen<X>(objects: Table, st: Session<X>)
    requires !st.g.syncDone
    ensures SessionAfter(st, [], KindIn(objects, st.seatId) == Seat, false) == st
    ensures Shrunk(objects, objects, Needed(objects, st)) && Requests([]) == []
  {
  }

  lemma {:induction false} DoneArrives<X(!new)>(h: Handler<Session<X>>, objects: Table, st: Session<X>, ps: seq<Packet>)
    requires ActsCommon(h) && BootTable(objects, st) && !st.g.syncDone
    requires ps != [] && IsDone(ps[0], st.g.syncCbId)
    ensures var f := FoldUntil(h, SyncDone(), objects, st, ps);
            && f.stopped && f.rest == ps[1..] && Requests(f.log) == []
            && f.st == SessionAfter(st, [], KindIn(objects, st.seatId) == Seat, true)
            && Shrunk(objects, f.objects, Needed(objects, st))
  {
    hide AdvertOf, Word, Text, NameIn;
    var e := HandleCommon(objects, st, ps[0].msg);
    assert h.handle(objects, st, ps[0].msg, FdOf(ps[0])) == e;
    assert e.st.g.syncDone;
    assert SyncDone<X>()(e.st);
    EventOnly(ps[0], []);
    assert NameIn([], st.seatId, st.seatName) == st.seatName by { NoName(st.seatId, st.seatName); }
  }

  lemma {:induction false} NoName(seat: U32, known: Name)
    ensures NameIn([], seat, known) == known
  {
  }

  // ---- The whole bootstrap ------------------------------------------------

  const REGISTRY: U32 := 2
  const FIRST_SYNC: U32 := 3
  const SEAT: U32 := 4
  const MANAGER: U32 := 5
  const SECOND_SYNC: U32 := 6

  /** What a packet list means for bootstrap: what came before the first barrier, between the barriers,
      and after them. */
  datatype Barriers = Barriers(first: seq<Packet>, reached1: bool, second: seq<Packet>, reached2: bool,
                               rest: seq<Packet>)

  function BarriersOf(ps: seq<Packet>): Barriers {
    var k1 := FirstDone(ps, FIRST_SYNC);
    if k1 == |ps| then Barriers(ps, false, [], false, [])
    else
      var rest := ps[k1 + 1..];
      var k2 := FirstDone(rest, SECOND_SYNC);
      Barriers(ps[..k1], true, rest[..k2], k2 < |rest|, if k2 < |rest| then rest[k2 + 1..] else [])
  }

  /** Until its barrier the compositor deletes none of the objects still in use. */
  ghost predicate BootSpared(b: Barriers) {
    Spared(b.first, {REGISTRY, FIRST_SYNC}) && Spared(b.second, {REGISTRY, SEAT, SECOND_SYNC})
  }

  /** The requests of a completed bootstrap. */
  function BootRequests(selector: Name, seats: seq<Global>, managers: seq<Global>): seq<Request>
    requires managers != [] && PickSeat(selector, |seats|).Some?
  {
    var sg, mg := seats[PickSeat(selector, |seats|).value], managers[0];
    [GetRegistry(REGISTRY), Sync(FIRST_SYNC),
     Bind(REGISTRY, sg.name, IF_SEAT, Min(sg.version, 7), SEAT),
     Bind(REGISTRY, mg.name, IF_MANAGER, Min(mg.version, 2), MANAGER),
     Sync(SECOND_SYNC)]
  }

  /** The table bootstrap leaves behind: its own ids, and no clipboard objects. */
  ghost predicate BootedTable(objects: Table) {
    forall id | id in objects ::
      && id < 7 && objects[id] !in {Device, Source, Offer}
      && (objects[id] == Display ==> id == DISPLAY_ID)
  }

  /** The session bootstrap leaves behind. */
  ghost predicate Booted<X>(s: Story<Session<X>>, ext: X, b: Barriers, seats: seq<Global>, managers: seq<Global>)
    requires managers != []
  {
    && s.nextId == 7 && s.rest == b.rest
    && s.st.ext == ext && s.st.seatId == SEAT && s.st.managerId == MANAGER
    && s.st.managerVersion == Min(managers[0].version, 2)
    && s.st.seatName == NameIn(b.second, SEAT, [])
    && BootedTable(s.objects)
  }

  lemma {:induction false} QueuedThenEvents(rs: seq<Request>, log: seq<LogItem>)
    requires Requests(log) == []
    ensures Requests(QueuedItems(rs) + log) == rs
  {
    hide Requests;
    RequestsConcat(QueuedItems(rs), log);
    RequestsOfQueued(rs);
    assert rs + [] == rs;
  }

  /** The first wait. */
  lemma {:induction false} FirstWait<X(!new)>(h: Handler<Session<X>>, ext: X, selector: Name, ps: seq<Packet>)
    requires ActsCommon(h) && Spared(BarriersOf(ps).first, {REGISTRY, FIRST_SYNC})
    ensures var b := BarriersOf(ps);
            var s := FoldPhase(h, Bootstrap<X>(selector)[0], map[DISPLAY_ID := Display], CLIENT_ID_MIN,
                               NewSession(ext), ps);
            && s.status == (if b.reached1 then Completed else Lost)
            && s.nextId == 4
            && s.rest == (if b.reached1 then ps[|b.first| + 1..] else [])
            && s.st == NewSession(ext).(g := Globals(REGISTRY, b.reached1, FIRST_SYNC,
                                                     GlobalsIn(b.first, REGISTRY, IF_SEAT),
                                                     GlobalsIn(b.first, REGISTRY, IF_MANAGER)))
            && Requests(s.log) == [GetRegistry(REGISTRY), Sync(FIRST_SYNC)]
            && Shrunk(map[DISPLAY_ID := Display, REGISTRY := Registry, FIRST_SYNC := Callback], s.objects, {REGISTRY})
  {
    hide FoldUntil, GlobalsIn, NameIn, Spared, Requests;
    var b := BarriersOf(ps);
    var e := EnterRegistry(map[DISPLAY_ID := Display], CLIENT_ID_MIN, NewSession(ext));
    assert KindIn(e.objects, e.st.seatId) != Seat;
    assert Needed(e.objects, e.st) == {REGISTRY, FIRST_SYNC};
    assert ps[..FirstDone(ps, FIRST_SYNC)] == b.first;
    WaitForSync(h, e.objects, e.st, ps);
    var f := FoldUntil(h, SyncDone(), e.objects, e.st, ps);
    QueuedThenEvents(e.reqs, f.log);
    assert [] + GlobalsIn(b.first, REGISTRY, IF_SEAT) == GlobalsIn(b.first, REGISTRY, IF_SEAT);
    assert [] + GlobalsIn(b.first, REGISTRY, IF_MANAGER) == GlobalsIn(b.first, REGISTRY, IF_MANAGER);
    assert e.objects == map[DISPLAY_ID := Display, REGISTRY := Registry, FIRST_SYNC := Callback];
  }

  /** The second wait, from a session as the first one leaves it. */
  lemma {:induction false} SecondWait<X(!new)>(h: Handler<Session<X>>, selector: Name, objects: Table, st: Session<X>,
                                               ps: seq<Packet>)
    requires ActsCommon(h)
    requires Shrunk(map[DISPLAY_ID := Display, REGISTRY := Registry, FIRST_SYNC := Callback], objects, {REGISTRY})
    requires st.g.registryId == REGISTRY && st.seatName == []
    requires Spared(ps[..FirstDone(ps, SECOND_SYNC)], {REGISTRY, SEAT, SECOND_SYNC})
    ensures var k := FirstDone(ps, SECOND_SYNC);
            var s := FoldPhase(h, Bootstrap<X>(selector)[1], objects, 4, st, ps);
            if st.g.managers == [] || PickSeat(selector, |st.g.seats|).None? then s.status.Rejected? && s.st == st
            else
              && s.status == (if k < |ps| then Completed else Lost)
              && Booted(s, st.ext, Barriers([], true, ps[..k], k < |ps|, if k < |ps| then ps[k + 1..] else []),
                        st.g.seats, st.g.managers)
              && [GetRegistry(REGISTRY), Sync(FIRST_SYNC)] + Requests(s.log)
                 == BootRequests(selector, st.g.seats, st.g.managers)
  {
    hide AllDigits, Decimal, FoldUntil, GlobalsIn, NameIn, Spared, Requests, PickSeat, BootTable, Needed, Shrunk,
      Booted, SessionAfter, FirstDone, BootRequests, Bind, Sync, GetRegistry, Min, ActsCommon, EnterBind;
    var e := EnterBind(selector, objects, 4, st);
    BindEntered(selector, objects, st);
    if e.Entered? {
      BindRequests(selector, objects, st);
      BoundTable(selector, objects, st);
      WaitForSync(h, e.objects, e.st, ps);
      var f := FoldUntil(h, SyncDone(), e.objects, e.st, ps);
      QueuedThenEvents(e.reqs, f.log);
      SecondBooted(h, selector, objects, st, ps);
    }
  }

  lemma {:induction false} BoundTable<X>(selector: Name, objects: Table, st: Session<X>)
    requires Shrunk(map[DISPLAY_ID := Display, REGISTRY := Registry, FIRST_SYNC := Callback], objects, {REGISTRY})
    requires st.g.registryId == REGISTRY && EnterBind(selector, objects, 4, st).Entered?
    ensures var e := EnterBind(selector, objects, 4, st);
            && BootTable(e.objects, e.st) && KindIn(e.objects, e.st.seatId) == Seat
            && Needed(e.objects, e.st) == {REGISTRY, SEAT, SECOND_SYNC}
            && (forall id | id in e.objects :: id < 7)
  {
    hide PickSeat, IF_SEAT, IF_MANAGER, Bind, Sync;
    assert forall id | id in objects :: id == DISPLAY_ID || id == REGISTRY || id == FIRST_SYNC;
    var e := EnterBind(selector, objects, 4, st);
    assert e.objects == objects[SEAT := Seat][MANAGER := Manager][SECOND_SYNC := Callback];
    assert e.st.g.registryId == REGISTRY && e.st.g.syncCbId == SECOND_SYNC && e.st.seatId == SEAT;
  }

  lemma {:induction false} SecondBooted<X(!new)>(h: Handler<Session<X>>, selector: Name, objects: Table,
                                                 st: Session<X>, ps: seq<Packet>)
    requires st.seatName == [] && EnterBind(selector, objects, 4, st).Entered?
    requires var e := EnterBind(selector, objects, 4, st);
             var k := FirstDone(ps, SECOND_SYNC);
             var f := FoldUntil(h, SyncDone(), e.objects, e.st, ps);
             && BootTable(e.objects, e.st) && (forall id | id in e.objects :: id < 7)
             && f.rest == (if k < |ps| then ps[k + 1..] else [])
             && f.st == SessionAfter(e.st, ps[..k], true, k < |ps|)
             && Shrunk(e.objects, f.objects, {REGISTRY, SEAT, SECOND_SYNC})
    ensures var k := FirstDone(ps, SECOND_SYNC);
            Booted(FoldPhase(h, Bootstrap<X>(selector)[1], objects, 4, st, ps), st.ext,
                   Barriers([], true, ps[..k], k < |ps|, if k < |ps| then ps[k + 1..] else []),
                   st.g.seats, st.g.managers)
  {
    hide FoldUntil, GlobalsIn, NameIn, PickSeat, FirstDone;
  }

  lemma {:induction false} BindEntered<X>(selector: Name, objects: Table, st: Session<X>)
    ensures var e := EnterBind(selector, objects, 4, st);
            if st.g.managers == [] || PickSeat(selector, |st.g.seats|).None? then e == Refused(st)
            else e.Entered? && e.st.g.syncCbId == SECOND_SYNC && !e.st.g.syncDone && e.st.ext == st.ext
  {
    hide AllDigits, Decimal;
  }

  lemma {:induction false} BindRequests<X>(selector: Name, objects: Table, st: Session<X>)
    requires st.g.registryId == REGISTRY && st.g.managers != [] && PickSeat(selector, |st.g.seats|).Some?
    ensures var e := EnterBind(selector, objects, 4, st);
            e.Entered? && [GetRegistry(REGISTRY), Sync(FIRST_SYNC)] + e.reqs
                          == BootRequests(selector, st.g.seats, st.g.managers)
  {
    hide PickSeat, IF_SEAT, IF_MANAGER, Min;
  }

  /** The second wait reads what the first one left. */
  lemma {:induction false} SecondBarrier(ps: seq<Packet>)
    requires BarriersOf(ps).reached1
    ensures var b := BarriersOf(ps);
            var rest := ps[|b.first| + 1..];
            var k := FirstDone(rest, SECOND_SYNC);
            && b.second == rest[..k] && (b.reached2 <==> k < |rest|)
            && b.rest == if k < |rest| then rest[k + 1..] else []
  {
    hide FirstDone;
  }

  /** Bootstrap over any packet list. It completes exactly when both barriers arrive, a manager and a seat
      were advertised before the first, and the selector picks a seat; then the globals it bound are those
      advertised before the first barrier, the seat's name is the last one sent before the second, and what
      it sent is fixed by them. */
  lemma {:induction false} BootstrapStory<X(!new)>(h: Handler<Session<X>>, ext: X, selector: Name, ps: seq<Packet>)
    requires ActsCommon(h) && BootSpared(BarriersOf(ps))
    ensures var b := BarriersOf(ps);
            var seats, managers := GlobalsIn(b.first, REGISTRY, IF_SEAT), GlobalsIn(b.first, REGISTRY, IF_MANAGER);
            var s := FoldPhases(h, Bootstrap<X>(selector), map[DISPLAY_ID := Display], CLIENT_ID_MIN, NewSession(ext),
                                ps);
            && (s.status.Completed? <==>
                  b.reached1 && b.reached2 && managers != [] && PickSeat(selector, |seats|).Some?)
            && s.st.ext == ext
            && (s.status.Completed? ==>
                  && Booted(s, ext, b, seats, managers)
                  && Requests(s.log) == BootRequests(selector, seats, managers))
  {
    hide FoldPhase, FoldPhases, GlobalsIn, NameIn, Spared, Requests, PickSeat, FirstDone, BootRequests, Min,
      BootedTable, ActsCommon, BarriersOf, Shrunk;
    var b := BarriersOf(ps);
    var program := Bootstrap<X>(selector);
    var objects: Table := map[DISPLAY_ID := Display];
    FirstWait(h, ext, selector, ps);
    var s1 := FoldPhase(h, program[0], objects, CLIENT_ID_MIN, NewSession(ext), ps);
    assert program == [program[0], program[1]];
    TwoStories(h, program[0], program[1], objects, CLIENT_ID_MIN, NewSession(ext), ps);
    if s1.status.Completed? {
      SecondBarrier(ps);
      SecondWait(h, selector, s1.objects, s1.st, s1.rest);
      var s2 := FoldPhase(h, program[1], s1.objects, s1.nextId, s1.st, s1.rest);
      RequestsConcat(s1.log, s2.log);
    }
  }

  /** These packets let an operation on this selection past bootstrap and the checks that follow it. */
  ghost predicate Reaches(selector: Name, sel: Selection, ps: seq<Packet>) {
    var b := BarriersOf(ps);
    var seats, managers := GlobalsIn(b.first, REGISTRY, IF_SEAT), GlobalsIn(b.first, REGISTRY, IF_MANAGER);
    && b.reached1 && b.reached2 && managers != [] && PickSeat(selector, |seats|).Some?
    && NameMatches(selector, NameIn(b.second, SEAT, [])) && (sel.Primary? ==> managers[0].version >= 2)
  }

  lemma {:induction false} CopyActsCommon()
    ensures ActsCommon(CopyDispatcher())
  {
    hide HandleCommon;
  }

  lemma {:induction false} PasteActsCommon()
    ensures ActsCommon(PasteDispatcher())
  {
    hide HandleCommon;
  }
}
