/** The hand-written data-control client: session state, dispatchers, and the copy and paste programs
    (src/clipboard/handcrafted.cpp). */
module Handcrafted {
  import opened Bytes
  import opened Wire
  import opened Dispatching
  import opened Phases
  import opened Mime

  // ---- Opcodes ------------------------------------------------------------

  const REQ_SYNC: U16 := 0
  const REQ_GET_REGISTRY: U16 := 1
  const EV_DELETE_ID: U16 := 1
  const REQ_BIND: U16 := 0
  const EV_GLOBAL: U16 := 0
  const EV_GLOBAL_REMOVE: U16 := 1
  const EV_DONE: U16 := 0
  const EV_SEAT_NAME: U16 := 1
  const REQ_CREATE_DATA_SOURCE: U16 := 0
  const REQ_GET_DATA_DEVICE: U16 := 1
  const REQ_SET_SELECTION: U16 := 0
  const REQ_SET_PRIMARY_SELECTION: U16 := 2
  const EV_DATA_OFFER: U16 := 0
  const EV_SELECTION: U16 := 1
  const EV_FINISHED: U16 := 2
  const EV_PRIMARY_SELECTION: U16 := 3
  const REQ_SOURCE_OFFER: U16 := 0
  const EV_SEND: U16 := 0
  const EV_CANCELLED: U16 := 1
  const REQ_RECEIVE: U16 := 0
  const REQ_OFFER_DESTROY: U16 := 1
  const EV_OFFER_MIME: U16 := 0

  const IF_SEAT: Name := Ascii("wl_seat")
  const IF_MANAGER: Name := Ascii("zwlr_data_control_manager_v1")

  // ---- Session state ------------------------------------------------------

  datatype Selection = Regular | Primary

  datatype Global = Global(name: U32, version: U32)

  datatype Globals = Globals(
    registryId: U32, syncDone: bool, syncCbId: U32, seats: seq<Global>, managers: seq<Global>)

  /** The part CopyState and PasteState share, and the part that is their own. */
  datatype Session<X> = Session(
    g: Globals, seatId: U32, seatName: Name, managerId: U32, managerVersion: U32, deviceId: U32, ext: X)

  /** `answered` records the descriptors handed to serve_send, in order. */
  datatype CopyState = CopyState(
    sourceId: U32, bytes: seq<Byte>, mimes: seq<Name>, oneshot: bool,
    done: bool, cancelled: bool, served: nat, cancelCount: nat, answered: seq<int>)

  datatype OfferRec = OfferRec(id: U32, mimes: seq<Name>)

  /** `available` and `mime` are the result fields the program fills in. */
  datatype PasteState = PasteState(
    offers: seq<OfferRec>, currentRegular: U32, currentPrimary: U32,
    gotRegular: bool, gotPrimary: bool, finished: bool,
    available: seq<Name>, mime: Name)

  type CopySession = Session<CopyState>
  type PasteSession = Session<PasteState>

  function NewSession<X>(ext: X): Session<X> {
    Session(Globals(0, false, 0, [], []), 0, [], 0, 0, 0, ext)
  }

  // ---- Dispatchers --------------------------------------------------------

  /** The first word of a message's payload, and its first string. */
  function Word(m: Message): U32 {
    ReadU32(m.payload, 0).0
  }

  function Text(m: Message): Name {
    ReadStr(m.payload, 0).0
  }

  datatype Advert = Advert(global: Global, interface: Name)

  /** The three arguments of wl_registry.global. */
  function AdvertOf(m: Message): Advert {
    var (name, c1) := ReadU32(m.payload, 0);
    var (iface, c2) := ReadStr(m.payload, c1);
    Advert(Global(name, ReadU32(m.payload, c2).0), iface)
  }

  function NoteGlobal(g: Globals, a: Advert): Globals {
    if a.interface == IF_SEAT then g.(seats := g.seats + [a.global])
    else if a.interface == IF_MANAGER then g.(managers := g.managers + [a.global])
    else g
  }

  /** handle_common. */
  function HandleCommon<X>(objects: Table, st: Session<X>, m: Message): Effect<Session<X>> {
    match KindIn(objects, m.id)
    case Display =>
      Effect(if m.opcode == EV_DELETE_ID then objects - {Word(m)} else objects, st, [], [])
    case Registry =>
      Effect(objects, if m.opcode == EV_GLOBAL then st.(g := NoteGlobal(st.g, AdvertOf(m))) else st, [], [])
    case Callback =>
      Effect(objects, if m.opcode == EV_DONE && m.id == st.g.syncCbId then st.(g := st.g.(syncDone := true))
             else st, [], [])
    case Seat =>
      Effect(objects, if m.opcode == EV_SEAT_NAME then st.(seatName := Text(m)) else st, [], [])
    case _ => Effect(objects, st, [], [])
  }

  predicate CopyWants(objects: Table, st: CopySession, m: Message) {
    KindIn(objects, m.id) == Source && m.opcode == EV_SEND
  }

  /** A source event: `send` answers on the popped descriptor, if there is one; the first `cancelled` is
      ignored, the second ends the copy. */
  function OnSource(c: CopyState, opcode: U16, fd: int): CopyState {
    if opcode == EV_SEND then
      c.(answered := if fd >= 0 then c.answered + [fd] else c.answered,
         served := c.served + 1, done := c.done || c.oneshot)
    else if opcode == EV_CANCELLED then
      if c.cancelCount == 0 then c.(cancelCount := 1)
      else c.(cancelCount := c.cancelCount + 1, cancelled := true, done := true)
    else c
  }

  function CopyHandle(objects: Table, st: CopySession, m: Message, fd: int): Effect<CopySession> {
    if KindIn(objects, m.id) == Source then
      Effect(objects, st.(ext := OnSource(st.ext, m.opcode, fd)), [], [])
    else HandleCommon(objects, st, m)
  }

  function OnDevice(p: PasteState, opcode: U16, id: U32): PasteState {
    if opcode == EV_DATA_OFFER then p.(offers := p.offers + [OfferRec(id, [])])
    else if opcode == EV_SELECTION then p.(currentRegular := id, gotRegular := true)
    else if opcode == EV_PRIMARY_SELECTION then p.(currentPrimary := id, gotPrimary := true)
    else if opcode == EV_FINISHED then p.(finished := true)
    else p
  }

  /** Adds a MIME type to the first record of that offer. */
  function AddMime(offers: seq<OfferRec>, id: U32, mime: Name): seq<OfferRec> {
    if offers == [] then []
    else if offers[0].id == id then [offers[0].(mimes := offers[0].mimes + [mime])] + offers[1..]
    else [offers[0]] + AddMime(offers[1..], id, mime)
  }

  function FindOffer(offers: seq<OfferRec>, id: U32): Option<OfferRec> {
    if offers == [] then None
    else if offers[0].id == id then Some(offers[0])
    else FindOffer(offers[1..], id)
  }

  function PasteHandle(objects: Table, st: PasteSession, m: Message, fd: int): Effect<PasteSession> {
    match KindIn(objects, m.id)
    case Device =>
      Effect(if m.opcode == EV_DATA_OFFER then objects[Word(m) := Offer] else objects,
             st.(ext := OnDevice(st.ext, m.opcode, Word(m))), [], [])
    case Offer =>
      Effect(objects,
             if m.opcode == EV_OFFER_MIME then st.(ext := st.ext.(offers := AddMime(st.ext.offers, m.id, Text(m))))
                 else st,
             [], [])
    case _ => HandleCommon(objects, st, m)
  }

  function CopyDispatcher(): Handler<CopySession> {
    Handler((o, s, m) => CopyWants(o, s, m), (o, s, m, fd) => CopyHandle(o, s, m, fd))
  }

  function PasteDispatcher(): Handler<PasteSession> {
    Handler((o, s, m) => false, (o, s, m, fd) => PasteHandle(o, s, m, fd))
  }

  /** After delete_id (event 1 of the display), whatever arrives for that id changes nothing. */
  lemma {:induction false} DeletedIsIgnored(objects: Table, copying: CopySession, pasting: PasteSession, del: Message,
                                            m: Message, fd: int)
    requires KindIn(objects, del.id) == Display && del.opcode == 1 && m.id == Word(del)
    ensures var e := CopyHandle(objects, copying, del, -1);
            && e.objects == objects - {Word(del)} && e.st == copying && !CopyWants(e.objects, e.st, m)
            && CopyHandle(e.objects, e.st, m, fd) == Effect(e.objects, copying, [], [])
    ensures var e := PasteHandle(objects, pasting, del, -1);
            && e.objects == objects - {Word(del)} && e.st == pasting
            && PasteHandle(e.objects, e.st, m, fd) == Effect(e.objects, pasting, [], [])
  {
    hide OnSource, OnDevice, AddMime, Text, AdvertOf;
  }

  // ---- Requests -----------------------------------------------------------

  function GetRegistry(registry: U32): Request { Request(DISPLAY_ID, REQ_GET_REGISTRY, [UInt(registry)]) }

  function Sync(callback: U32): Request { Request(DISPLAY_ID, REQ_SYNC, [UInt(callback)]) }

  /** bind's new id carries its interface and version: string, version, id. */
  function Bind(registry: U32, name: U32, interface: Name, version: U32, id: U32): Request {
    Request(registry, REQ_BIND, [UInt(name), Str(interface), UInt(version), UInt(id)])
  }

  function CreateDataSource(manager: U32, source: U32): Request {
    Request(manager, REQ_CREATE_DATA_SOURCE, [UInt(source)])
  }

  function GetDataDevice(manager: U32, device: U32, seat: U32): Request {
    Request(manager, REQ_GET_DATA_DEVICE, [UInt(device), UInt(seat)])
  }

  function SourceOffer(source: U32, mime: Name): Request { Request(source, REQ_SOURCE_OFFER, [Str(mime)]) }

  function SourceOffers(source: U32, mimes: seq<Name>): (rs: seq<Request>)
    ensures |rs| == |mimes|
  {
    seq(|mimes|, i requires 0 <= i < |mimes| => SourceOffer(source, mimes[i]))
  }

  function SetSelection(device: U32, sel: Selection, source: U32): Request {
    Request(device, if sel.Primary? then REQ_SET_PRIMARY_SELECTION else REQ_SET_SELECTION, [UInt(source)])
  }

  function Receive(offer: U32, mime: Name): Request { Request(offer, REQ_RECEIVE, [Str(mime)]) }

  // ---- Bootstrap ----------------------------------------------------------

  function Next(id: U32): U32 {
    (id + 1) % 0x1_0000_0000
  }

  function SyncDone<X>(): Session<X> -> bool {
    (st: Session<X>) => st.g.syncDone
  }

  /** get_registry and the first sync. */
  function EnterRegistry<X>(objects: Table, nextId: U32, st: Session<X>): Entry<Session<X>> {
    var registry, callback := nextId, Next(nextId);
    Entered(objects[registry := Registry][callback := Callback], Next(callback),
            st.(g := st.g.(registryId := registry, syncCbId := callback)),
            [GetRegistry(registry), Sync(callback)], [], false)
  }

  predicate AllDigits(s: Name) {
    forall i | 0 <= i < |s| :: 0x30 <= s[i] <= 0x39
  }

  /** The value of a string of decimal digits. */
  function Decimal(s: Name): nat
    requires AllDigits(s)
  {
    if s == [] then 0
    else
      var digit: int := s[|s| - 1];
      Decimal(s[..|s| - 1]) * 10 + (digit - 0x30)
  }

  /** The seat a selector picks: an index if it is numeric, otherwise the first; None when out of range. */
  function PickSeat(selector: Name, seats: nat): (r: Option<nat>)
    ensures r.Some? ==> r.value < seats && r.value == if AllDigits(selector) then Decimal(selector) else 0
    ensures r.None? ==> seats == 0 || (AllDigits(selector) && seats <= Decimal(selector))
  {
    var index := if AllDigits(selector) then Decimal(selector) else 0;
    if index < seats then Some(index) else None
  }

  predicate NameMatches(selector: Name, seatName: Name) {
    selector == [] || AllDigits(selector) || seatName == selector
  }

  /** A number as it is written: '0' is 0x30. */
  function Digits(n: nat): Name {
    if n < 10 then [0x30 + n] else Digits(n / 10) + [0x30 + n % 10]
  }

  lemma {:induction false} DecimalOfDigits(zeros: nat, n: nat)
    ensures var s := seq(zeros, _ => 0x30) + Digits(n); AllDigits(s) && Decimal(s) == n
    decreases n, zeros
  {
    hide Decimal, AllDigits;
    var lead := seq(zeros, _ => 0x30);
    if n >= 10 {
      DecimalOfDigits(zeros, n / 10);
      DecimalSnoc(lead + Digits(n / 10), n % 10);
      assert lead + Digits(n) == lead + Digits(n / 10) + [0x30 + n % 10];
    } else if zeros > 0 {
      DecimalOfDigits(zeros - 1, 0);
      DecimalSnoc(lead, n);
      assert lead == seq(zeros - 1, _ => 0x30) + Digits(0);
    } else {
      NoDigits();
      DecimalSnoc([], n);
      assert lead + Digits(n) == [] + [0x30 + n];
    }
  }

  lemma {:induction false} DecimalSnoc(s: Name, d: nat)
    requires AllDigits(s) && d < 10
    ensures AllDigits(s + [0x30 + d]) && Decimal(s + [0x30 + d]) == 10 * Decimal(s) + d
  {
    var all := s + [0x30 + d];
    assert all[..|all| - 1] == s && all[|all| - 1] == 0x30 + d;
  }

  /** A numeric selector, leading zeros or not, picks the seat of its number, if there is one. */
  lemma {:induction false} NumberPicksSeat(zeros: nat, n: nat, seats: nat)
    ensures PickSeat(seq(zeros, _ => 0x30) + Digits(n), seats) == if n < seats then Some(n) else None
  {
    hide Decimal, Digits;
    DecimalOfDigits(zeros, n);
  }

  /** Every numeric selector is a number with leading zeros. */
  lemma {:induction false} NumericIsNumber(s: Name) returns (zeros: nat, n: nat)
    requires s != [] && forall c | c in s :: c in Ascii("0123456789")
    ensures s == seq(zeros, _ => 0x30) + Digits(n)
    decreases |s|
  {
    var init, last := s[..|s| - 1], s[|s| - 1];
    assert last in s && 0x30 <= last <= 0x39;
    var d: int := last;
    if init == [] {
      zeros, n := 0, d - 0x30;
      assert s == [last];
    } else {
      assert forall c | c in init :: c in s;
      var z, m := NumericIsNumber(init);
      if m == 0 {
        zeros, n := z + 1, d - 0x30;
        assert init == seq(z, _ => 0x30) + [0x30] == seq(z + 1, _ => 0x30);
      } else {
        zeros, n := z, 10 * m + (d - 0x30);
        assert n / 10 == m && n % 10 == d - 0x30;
      }
      assert s == init + [last];
    }
  }

  /** A selector with anything but digits in it picks the first seat, and insists on its name; an empty or numeric one
      takes any name. */
  lemma {:induction false} NamePicksFirst(selector: Name, seats: nat, seatName: Name)
    ensures (exists c :: c in selector && c !in Ascii("0123456789")) ==>
              && PickSeat(selector, seats) == (if seats > 0 then Some(0) else None)
              && (NameMatches(selector, seatName) <==> seatName == selector)
    ensures (forall c | c in selector :: c in Ascii("0123456789")) ==> NameMatches(selector, seatName)
    ensures PickSeat([], seats) == if seats > 0 then Some(0) else None
  {
    hide Decimal;
    NoDigits();
    forall c: Byte ensures c in Ascii("0123456789") <==> 0x30 <= c <= 0x39 { IsDigit(c); }
    assert forall i | 0 <= i < |selector| :: selector[i] in selector;
    if c :| c in selector && c !in Ascii("0123456789") {
      var i :| 0 <= i < |selector| && selector[i] == c;
      assert !AllDigits(selector);
    }
  }

  lemma {:induction false} NoDigits()
    ensures AllDigits([]) && Decimal([]) == 0
  {
  }

  lemma {:induction false} IsDigit(c: Byte)
    ensures c in Ascii("0123456789") <==> 0x30 <= c <= 0x39
  {
    var b := Ascii("0123456789");
    if 0x30 <= c <= 0x39 {
      assert b[c - 0x30] == c;
    }
  }

  /** Pick seat and manager, bind both, and sync again so that the seat's name arrives. */
  function EnterBind<X>(selector: Name, objects: Table, nextId: U32, st: Session<X>): Entry<Session<X>> {
    if st.g.managers == [] || st.g.seats == [] then Refused(st)
    else
      var pick := PickSeat(selector, |st.g.seats|);
      if pick.None? then Refused(st)
      else
        var seatGlobal, managerGlobal := st.g.seats[pick.value], st.g.managers[0];
        var seat, manager, callback := nextId, Next(nextId), Next(Next(nextId));
        var version := Min(managerGlobal.version, 2);
        Entered(objects[seat := Seat][manager := Manager][callback := Callback], Next(callback),
                st.(seatId := seat, managerId := manager, managerVersion := version,
                    g := st.g.(syncDone := false, syncCbId := callback)),
                [Bind(st.g.registryId, seatGlobal.name, IF_SEAT, Min(seatGlobal.version, 7), seat),
                 Bind(st.g.registryId, managerGlobal.name, IF_MANAGER, version, manager),
                 Sync(callback)], [], false)
  }

  function Bootstrap<X>(selector: Name): seq<Phase<Session<X>>> {
    [Phase((o, n, s) => EnterRegistry(o, n, s), SyncDone()),
     Phase((o, n, s) => EnterBind(selector, o, n, s), SyncDone())]
  }

  // ---- Copy ---------------------------------------------------------------

  function NewCopy(bytes: seq<Byte>, mimes: seq<Name>, oneshot: bool): CopySession {
    NewSession(CopyState(0, bytes, mimes, oneshot, false, false, 0, 0, []))
  }

  /** Create the source, offer every type, take the selection. */
  function EnterCopy(selector: Name, sel: Selection, objects: Table, nextId: U32, st: CopySession): Entry<CopySession> {
    if !NameMatches(selector, st.seatName) || (sel.Primary? && st.managerVersion < 2) || st.ext.mimes == [] then
        Refused(st)
    else
      var source, device := nextId, Next(nextId);
      Entered(objects[source := Source][device := Device], Next(device),
              st.(deviceId := device, ext := st.ext.(sourceId := source)),
              [CreateDataSource(st.managerId, source), GetDataDevice(st.managerId, device, st.seatId)]
              + SourceOffers(source, st.ext.mimes) + [SetSelection(device, sel, source)], [], true)
  }

  function CopyDone(): CopySession -> bool {
    (st: CopySession) => st.ext.done
  }

  function CopyPhase(selector: Name, sel: Selection): Phase<CopySession> {
    Phase((o, n, s) => EnterCopy(selector, sel, o, n, s), CopyDone())
  }

  function CopyProgram(selector: Name, sel: Selection): seq<Phase<CopySession>> {
    Bootstrap(selector) + [CopyPhase(selector, sel)]
  }

  /** The return value of copy. */
  predicate CopyVerdict(status: Status, st: CopySession) {
    status.Completed? && (!st.ext.cancelled || st.ext.served > 0)
  }

  // ---- Paste --------------------------------------------------------------

  function NewPaste(): PasteSession {
    NewSession(PasteState([], 0, 0, false, false, false, [], []))
  }

  function EnterPaste(selector: Name, sel: Selection, objects: Table, nextId: U32,
                      st: PasteSession): Entry<PasteSession> {
    if !NameMatches(selector, st.seatName) || (sel.Primary? && st.managerVersion < 2) then Refused(st)
    else
      var device := nextId;
      Entered(objects[device := Device], Next(device), st.(deviceId := device),
              [GetDataDevice(st.managerId, device, st.seatId)], [], true)
  }

  predicate HaveTarget(sel: Selection, p: PasteState) {
    p.finished || (if sel.Primary? then p.gotPrimary else p.gotRegular)
  }

  function TargetSeen(sel: Selection): PasteSession -> bool {
    (st: PasteSession) => HaveTarget(sel, st.ext)
  }

  function Current(sel: Selection, p: PasteState): U32 {
    if sel.Primary? then p.currentPrimary else p.currentRegular
  }

  /** After the wait: look the offer up, choose a type, ask for it. `pipe` is make_pipe's result. */
  function EnterReceive(sel: Selection, prefer: Name, listOnly: bool, pipe: Option<int>, objects: Table, nextId: U32,
                        st: PasteSession): Entry<PasteSession>
  {
    var id := Current(sel, st.ext);
    var rec := FindOffer(st.ext.offers, id);
    if id == 0 || rec.None? then Refused(st)
    else
      var mimes := rec.value.mimes;
      var listed := st.(ext := st.ext.(available := mimes));
      if listOnly then Entered(objects, nextId, listed, [], [], false)
      else
        var mime := ChooseMime(mimes, prefer);
        if mime == [] then Refused(listed)
        else
          var chosen := listed.(ext := listed.ext.(mime := mime));
          if pipe.None? then Refused(chosen)
          else Entered(objects, nextId, chosen, [Receive(id, mime)], [pipe.value], true)
  }

  function Immediately(): PasteSession -> bool {
    (st: PasteSession) => true
  }

  function PastePhase(selector: Name, sel: Selection): Phase<PasteSession> {
    Phase((o, n, s) => EnterPaste(selector, sel, o, n, s), TargetSeen(sel))
  }

  function ReceivePhase(sel: Selection, prefer: Name, listOnly: bool, pipe: Option<int>): Phase<PasteSession> {
    Phase((o, n, s) => EnterReceive(sel, prefer, listOnly, pipe, o, n, s), Immediately())
  }

  function PasteProgram(selector: Name, sel: Selection, prefer: Name, listOnly: bool,
                        pipe: Option<int>): seq<Phase<PasteSession>> {
    Bootstrap(selector) + [PastePhase(selector, sel), ReceivePhase(sel, prefer, listOnly, pipe)]
  }
}
