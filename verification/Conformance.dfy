/** What client and compositor agree on, and that both dispatchers and every request keep it so. */
module Conformance {
  import opened Bytes
  import opened Wire
  import opened Dispatching
  import opened Mime
  import opened Handcrafted
  import opened Compositor

  // ---- What client and compositor agree on --------------------------------

  ghost predicate KindAgrees(kind: ObjKind, id: U32, p: Peer) {
    match kind
    case Registry => id in p.objs && p.objs[id].SRegistry?
    case Device => id in p.objs && p.objs[id].SDevice?
    case Offer => id in p.offers
    case _ => true
  }

  ghost predicate Announced(p: Peer, r: OfferRec) {
    r.id in p.offers && forall m | m in r.mimes :: m in p.offers[r.id] && |m| <= MAX_TEXT
  }

  ghost predicate IdsApart(p: Peer, nextId: U32) {
    && p.next == nextId < SERVER_ID_MIN
    && (forall id | id in p.objs :: id < nextId)
    && (forall id | id in p.offers :: id >= SERVER_ID_MIN)
    && Is(p, DISPLAY_ID, SDisplay)
  }

  ghost predicate SessionAgrees<X>(st: Session<X>, p: Peer) {
    && (forall s | s in st.g.seats :: Advert(s, IF_SEAT) in p.adverts)
    && (forall s | s in st.g.managers :: Advert(s, IF_MANAGER) in p.adverts)
    && (forall a | a in p.adverts :: a.global.version >= 1)
    && (st.g.registryId != 0 ==> Is(p, st.g.registryId, SRegistry))
    && (st.seatId != 0 ==> Is(p, st.seatId, SSeat))
    && (st.managerId != 0 ==> Is(p, st.managerId, SManager(st.managerVersion)))
  }

  /** Client (table, next id, session, offers) and compositor see the same world. */
  ghost predicate Agree<X>(objects: Table, nextId: U32, st: Session<X>, offers: seq<OfferRec>, p: Peer) {
    && IdsApart(p, nextId)
    && (forall id | id in objects :: KindAgrees(objects[id], id, p))
    && SessionAgrees(st, p)
    && (forall r | r in offers :: Announced(p, r))
  }

  /** The verdict so far: the compositor broke a rule first, or nobody did and both sides agree. */
  ghost predicate Conforms<X>(objects: Table, nextId: U32, st: Session<X>, offers: seq<OfferRec>, log: seq<LogItem>) {
    var v := Judge(Fair(NEW_PEER), log);
    v.CompositorAtFault? || (v.Fair? && Agree(objects, nextId, st, offers, v.peer))
  }

  // ---- Events -------------------------------------------------------------

  /** Texts of received messages are short enough to be sent back. */
  lemma {:induction false} ReceivedTextIsShort(m: Message)
    requires Fits(m)
    ensures |Text(m)| <= MAX_TEXT
  {
    hide FromLe32;
  }

  /** An event changes only the adverts and offers the compositor remembers, and only by adding. */
  lemma {:induction false} EventGrows(p: Peer, nextId: U32, m: Message)
    requires IdsApart(p, nextId) && JudgeEvent(p, m).Fair?
    ensures var q := JudgeEvent(p, m).peer;
            && q.objs == p.objs && IdsApart(q, nextId)
            && (forall a | a in p.adverts :: a in q.adverts)
            && (forall id | id in p.offers :: id in q.offers && forall x | x in p.offers[id] :: x in q.offers[id])
  {
    hide AdvertOf, Word, Text;
  }

  lemma {:induction false} EventKeepsShared<X>(objects: Table, nextId: U32, st: Session<X>, offers: seq<OfferRec>,
                                               p: Peer, m: Message)
    requires Agree(objects, nextId, st, offers, p) && JudgeEvent(p, m).Fair?
    ensures Agree(objects, nextId, st, offers, JudgeEvent(p, m).peer)
  {
    EventGrows(p, nextId, m);
    hide AdvertOf, Word, Text, IdsApart;
    var q := JudgeEvent(p, m).peer;
    assert forall a | a in q.adverts :: a in p.adverts || a.global.version >= 1;
  }

  lemma {:induction false} CommonKeepsAgree<X>(objects: Table, nextId: U32, st: Session<X>, offers: seq<OfferRec>,
                                               p: Peer, m: Message)
    requires Agree(objects, nextId, st, offers, p) && JudgeEvent(p, m).Fair?
    ensures var e := HandleCommon(objects, st, m);
            Agree(e.objects, nextId, e.st, offers, JudgeEvent(p, m).peer)
  {
    EventKeepsShared(objects, nextId, st, offers, p, m);
    hide AdvertOf, Word, Text, IdsApart, IF_SEAT, IF_MANAGER;
    var a := AdvertOf(m);
    if KindIn(objects, m.id) == Registry && m.opcode == EV_GLOBAL {
      assert KindAgrees(objects[m.id], m.id, p);
      assert a in JudgeEvent(p, m).peer.adverts;
      assert a == Advert(a.global, a.interface);
    }
  }

  lemma {:induction false} CopyKeepsAgree(objects: Table, nextId: U32, st: CopySession, p: Peer, m: Message, fd: int)
    requires Agree(objects, nextId, st, [], p) && JudgeEvent(p, m).Fair?
    ensures var e := CopyHandle(objects, st, m, fd);
            Agree(e.objects, nextId, e.st, [], JudgeEvent(p, m).peer)
  {
    CommonKeepsAgree(objects, nextId, st, [], p, m);
    EventKeepsShared(objects, nextId, st, [], p, m);
    hide AdvertOf, Word, Text, IdsApart, HandleCommon, JudgeEvent, OnSource;
  }

  lemma {:induction false} AddMimeMembers(offers: seq<OfferRec>, id: U32, mime: Name, r: OfferRec)
    requires r in AddMime(offers, id, mime)
    ensures r in offers || (r.id == id && |r.mimes| > 0 && r.mimes[|r.mimes| - 1] == mime
                            && r.(mimes := r.mimes[..|r.mimes| - 1]) in offers)
  {
    if offers != [] {
      if offers[0].id == id {
        if r !in offers {
          assert r == offers[0].(mimes := offers[0].mimes + [mime]);
          assert r.mimes[..|r.mimes| - 1] == offers[0].mimes;
        }
      } else if r != offers[0] {
        AddMimeMembers(offers[1..], id, mime, r);
      }
    }
  }

  lemma {:induction false} PasteKeepsAgree(objects: Table, nextId: U32, st: PasteSession, p: Peer, m: Message, fd: int)
    requires Agree(objects, nextId, st, st.ext.offers, p) && JudgeEvent(p, m).Fair? && Fits(m)
    ensures var e := PasteHandle(objects, st, m, fd);
            Agree(e.objects, nextId, e.st, e.st.ext.offers, JudgeEvent(p, m).peer)
  {
    CommonKeepsAgree(objects, nextId, st, st.ext.offers, p, m);
    EventKeepsShared(objects, nextId, st, st.ext.offers, p, m);
    match KindIn(objects, m.id)
    case Device => DeviceKeepsAgree(objects, nextId, st, p, m, fd);
    case Offer => OfferKeepsAgree(objects, nextId, st, p, m, fd);
    case _ =>
      hide AdvertOf, Word, Text, IdsApart, JudgeEvent;
      assert HandleCommon(objects, st, m).st.ext == st.ext;
  }

  lemma {:induction false} DeviceKeepsAgree(objects: Table, nextId: U32, st: PasteSession, p: Peer, m: Message, fd: int)
    requires Agree(objects, nextId, st, st.ext.offers, p) && JudgeEvent(p, m).Fair?
    requires KindIn(objects, m.id) == Device
    ensures var e := PasteHandle(objects, st, m, fd);
            Agree(e.objects, nextId, e.st, e.st.ext.offers, JudgeEvent(p, m).peer)
  {
    EventKeepsShared(objects, nextId, st, st.ext.offers, p, m);
    hide Word, AdvertOf, Text, IdsApart;
    assert KindAgrees(objects[m.id], m.id, p);
  }

  lemma {:induction false} OfferKeepsAgree(objects: Table, nextId: U32, st: PasteSession, p: Peer, m: Message, fd: int)
    requires Agree(objects, nextId, st, st.ext.offers, p) && JudgeEvent(p, m).Fair? && Fits(m)
    requires KindIn(objects, m.id) == Offer
    ensures var e := PasteHandle(objects, st, m, fd);
            Agree(e.objects, nextId, e.st, e.st.ext.offers, JudgeEvent(p, m).peer)
  {
    EventKeepsShared(objects, nextId, st, st.ext.offers, p, m);
    ReceivedTextIsShort(m);
    hide AdvertOf, Word, Text, AddMime, SessionAgrees;
    assert KindAgrees(objects[m.id], m.id, p);
    if m.opcode == EV_OFFER_MIME {
      MimeKeepsAnnounced(st.ext.offers, m.id, Text(m), JudgeEvent(p, m).peer);
    }
  }

  lemma {:induction false} MimeKeepsAnnounced(offers: seq<OfferRec>, id: U32, mime: Name, q: Peer)
    requires forall r | r in offers :: Announced(q, r)
    requires id in q.offers && mime in q.offers[id] && |mime| <= MAX_TEXT
    ensures forall r | r in AddMime(offers, id, mime) :: Announced(q, r)
  {
    hide AddMime;
    forall r | r in AddMime(offers, id, mime) ensures Announced(q, r) {
      AddMimeMembers(offers, id, mime, r);
      if r !in offers {
        var was := r.(mimes := r.mimes[..|r.mimes| - 1]);
        assert Announced(q, was);
        assert forall x | x in r.mimes :: x in was.mimes || x == mime;
      }
    }
  }

  // ---- Requests -----------------------------------------------------------

  lemma {:induction false} JudgeQueued(v: Verdict, rs: seq<Request>)
    requires rs != []
    ensures Judge(v, QueuedItems(rs)) == Judge(JudgeItem(v, Queued(rs[0])), QueuedItems(rs[1..]))
  {
    hide JudgeItem;
    assert QueuedItems(rs)[1..] == QueuedItems(rs[1..]);
  }

  /** The peer once it has created object o under its next id. */
  function Created(p: Peer, o: ServerObj): Peer {
    p.(next := Next(p.next), objs := p.objs[p.next := o])
  }

  lemma {:induction false} CreateKeepsAgree<X>(objects: Table, nextId: U32, st: Session<X>, offers: seq<OfferRec>,
                                               p: Peer, kind: ObjKind, o: ServerObj)
    requires Agree(objects, nextId, st, offers, p) && nextId < 100
    requires KindAgrees(kind, nextId, Created(p, o))
    ensures Agree(objects[nextId := kind], Next(nextId), st, offers, Created(p, o))
    ensures Is(Created(p, o), nextId, o)
    ensures forall id, x | Is(p, id, x) :: Is(Created(p, o), id, x)
  {
  }

  /** A request made of words that creates object o under the next id. */
  lemma {:induction false} CreationJudged(p: Peer, r: Request, o: ServerObj)
    requires r.args != [] && |r.args| <= 2 && forall a | a in r.args :: a.UInt?
    requires Signature(p, r.id, r.opcode) == Some(KindsOf(r.args))
    requires Admit(p, r.id, r.opcode, r.args) == Create(p, p.next, o) && p.next < 100
    ensures JudgeItem(Fair(p), Queued(r)) == Fair(Created(p, o))
  {
    hide Admit, Signature, JudgeRequest;
    WordsFit(r);
    JudgeEncoded(p, r);
  }

  lemma {:induction false} SyncJudged(p: Peer)
    requires Is(p, DISPLAY_ID, SDisplay) && p.next < 100
    ensures JudgeItem(Fair(p), Queued(Sync(p.next))) == Fair(Created(p, SCallback))
  {
    var r := Sync(p.next);
    assert KindsOf(r.args) == [UIntKind];
    CreationJudged(p, r, SCallback);
  }

  lemma {:induction false} GetRegistryJudged(p: Peer)
    requires Is(p, DISPLAY_ID, SDisplay) && p.next < 100
    ensures JudgeItem(Fair(p), Queued(GetRegistry(p.next))) == Fair(Created(p, SRegistry))
  {
    var r := GetRegistry(p.next);
    assert KindsOf(r.args) == [UIntKind];
    CreationJudged(p, r, SRegistry);
  }

  lemma {:induction false} BindJudged(p: Peer, registry: U32, g: Global, interface: Name, version: U32, o: ServerObj)
    requires Is(p, registry, SRegistry) && p.next < 100
    requires Advert(g, interface) in p.adverts && 1 <= version <= g.version && g.name !in p.withdrawn
    requires (interface == IF_SEAT && o == SSeat) || (interface == IF_MANAGER && o == SManager(version))
    ensures JudgeItem(Fair(p), Queued(Bind(registry, g.name, interface, version, p.next))) == Fair(Created(p, o))
  {
    hide Ascii;
    assert |IF_SEAT| < |IF_MANAGER| < 100;
    var r := Bind(registry, g.name, interface, version, p.next);
    assert KindsOf(r.args) == [UIntKind, StrKind, UIntKind, UIntKind];
    BindFits(registry, g.name, interface, version, p.next);
    assert Signature(p, r.id, r.opcode) == Some(KindsOf(r.args));
    JudgeEncoded(p, r);
  }

  /** Binding a withdrawn global is the client's fault. */
  lemma {:induction false} WithdrawnBindJudged(p: Peer, registry: U32, g: Global, interface: Name, version: U32,
                                               id: U32)
    requires Is(p, registry, SRegistry) && g.name in p.withdrawn && |interface| <= 100
    ensures JudgeItem(Fair(p), Queued(Bind(registry, g.name, interface, version, id))) == ClientAtFault
  {
    hide Ascii;
    var r := Bind(registry, g.name, interface, version, id);
    assert KindsOf(r.args) == [UIntKind, StrKind, UIntKind, UIntKind];
    BindFits(registry, g.name, interface, version, id);
    assert Signature(p, r.id, r.opcode) == Some(KindsOf(r.args));
    JudgeEncoded(p, r);
  }

  lemma {:induction false} CreateDataSourceJudged(p: Peer, manager: U32, version: U32)
    requires Is(p, manager, SManager(version)) && p.next < 100
    ensures JudgeItem(Fair(p), Queued(CreateDataSource(manager, p.next))) == Fair(Created(p, SSource(false)))
  {
    var r := CreateDataSource(manager, p.next);
    assert KindsOf(r.args) == [UIntKind];
    CreationJudged(p, r, SSource(false));
  }

  lemma {:induction false} GetDataDeviceJudged(p: Peer, manager: U32, version: U32, seat: U32)
    requires Is(p, manager, SManager(version)) && Is(p, seat, SSeat) && p.next < 100
    ensures JudgeItem(Fair(p), Queued(GetDataDevice(manager, p.next, seat))) == Fair(Created(p, SDevice(version)))
  {
    var r := GetDataDevice(manager, p.next, seat);
    assert KindsOf(r.args) == [UIntKind, UIntKind];
    CreationJudged(p, r, SDevice(version));
  }

  lemma {:induction false} SetSelectionJudged(p: Peer, device: U32, version: U32, sel: Selection, source: U32)
    requires Is(p, device, SDevice(version)) && Is(p, source, SSource(false))
    requires sel.Primary? ==> version >= 2
    ensures JudgeItem(Fair(p), Queued(SetSelection(device, sel, source)))
            == Fair(Takes(p, device, sel, source))
  {
    var r := SetSelection(device, sel, source);
    assert KindsOf(r.args) == [UIntKind];
    WordsFit(r);
    JudgeEncoded(p, r);
  }

  lemma {:induction false} SourceOffersJudged(p: Peer, source: U32, mimes: seq<Name>)
    requires Is(p, source, SSource(false))
    ensures Judge(Fair(p), QueuedItems(SourceOffers(source, mimes)))
         == if Sendable(mimes) then Fair(p) else ClientAtFault
    decreases |mimes|
  {
    hide JudgeRequest;
    if mimes != [] {
      var rs := SourceOffers(source, mimes);
      JudgeQueued(Fair(p), rs);
      assert rs[1..] == SourceOffers(source, mimes[1..]);
      assert mimes == [mimes[0]] + mimes[1..];
      assert Sendable(mimes) <==> |mimes[0]| <= MAX_TEXT && Sendable(mimes[1..]);
      OfferJudged(p, source, mimes[0]);
      if |mimes[0]| <= MAX_TEXT {
        SourceOffersJudged(p, source, mimes[1..]);
      } else {
        JudgeAfterFault(ClientAtFault, QueuedItems(rs[1..]));
      }
    }
  }

  lemma {:induction false} ReceiveJudged(p: Peer, nextId: U32, offer: U32, mime: Name)
    requires IdsApart(p, nextId)
    requires offer in p.offers && mime in p.offers[offer] && |mime| <= MAX_TEXT
    ensures JudgeItem(Fair(p), Queued(Receive(offer, mime))) == Fair(p)
  {
    var r := Receive(offer, mime);
    assert KindsOf(r.args) == [StrKind];
    OneTextFits(r, mime);
    JudgeEncoded(p, r);
  }
}
