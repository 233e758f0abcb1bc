/** A compositor that checks the client: it decodes every request from its bytes and judges it by the rules for
    requests of the Wayland core protocol and of wlr-data-control-unstable-v1; and it keeps track of the offers that
    the client should have destroyed. */
module Compositor {
  import opened Bytes
  import opened Wire
  import opened Dispatching
  import opened Mime
  import opened Handcrafted

  /** The longest text a one-string request can carry. */
  const MAX_TEXT: nat := 65519

  datatype ServerObj =
    | SDisplay | SRegistry | SCallback | SSeat
    | SManager(version: U32) | SDevice(version: U32) | SSource(used: bool)

  /** The compositor's memory: the id the next new object must have, the client's objects, what was advertised to it
      and which of these names were withdrawn since, the sources it took selections with by device and kind, and the
      offers announced to it with their types; of the offers, `shown` are the current selections by device and kind,
      and `owed` are those that were superseded and that the client has not destroyed since. */
  datatype Peer = Peer(next: U32, objs: map<U32, ServerObj>, adverts: seq<Advert>, withdrawn: set<U32>,
                       taken: map<(U32, Selection), U32>, offers: map<U32, seq<Name>>,
                       shown: map<(U32, Selection), U32>, owed: set<U32>)

  datatype Verdict = Fair(peer: Peer) | CompositorAtFault | ClientAtFault

  const NEW_PEER: Peer := Peer(CLIENT_ID_MIN, map[DISPLAY_ID := SDisplay], [], {}, map[], map[], map[], {})

  predicate Is(p: Peer, id: U32, o: ServerObj) {
    id in p.objs && p.objs[id] == o
  }

  /** Argument kinds of the requests of each interface this client uses. Requests and events are numbered by their
      positions in the protocol's interface descriptions. */
  function Signature(p: Peer, id: U32, opcode: U16): Option<seq<ArgKind>> {
    if id in p.objs then
      match p.objs[id]
      case SDisplay => if opcode == 0 || opcode == 1 then Some([UIntKind]) else None  // sync, get_registry
      case SRegistry => if opcode == 0 then Some([UIntKind, StrKind, UIntKind, UIntKind]) else None  // bind
      case SManager(_) =>
        if opcode == 0 then Some([UIntKind])  // create_data_source
        else if opcode == 1 then Some([UIntKind, UIntKind])  // get_data_device
        else None
      case SDevice(version) =>
        if opcode == 0 || (opcode == 2 && version >= 2) then Some([UIntKind])  // set_selection, set_primary_selection
        else None
      case SSource(_) => if opcode == 0 then Some([StrKind]) else None  // offer
      case _ => None
    else if id in p.offers && opcode == 0 then Some([StrKind])  // receive
    else if id in p.offers && opcode == 1 then Some([])  // destroy
    else None
  }

  /** A new object takes the next id, without gaps. */
  function Create(p: Peer, id: U32, o: ServerObj): Verdict {
    if id == p.next && id < SERVER_ID_MIN then Fair(p.(next := Next(id), objs := p.objs[id := o])) else ClientAtFault
  }

  /** The effect of a request whose arguments fit its signature. */
  function Admit(p: Peer, id: U32, opcode: U16, args: seq<Arg>): Verdict
    requires Signature(p, id, opcode) == Some(KindsOf(args))
  {
    var ks := KindsOf(args);
    assert forall i | 0 <= i < |args| :: ks[i] == KindOf(args[i]);
    if id in p.objs then
      match p.objs[id]
      case SDisplay => Create(p, args[0].u, if opcode == 0 then SCallback else SRegistry)
      case SRegistry => AdmitBind(p, args[0].u, args[1].s, args[2].u, args[3].u)
      case SManager(version) =>
        if opcode == 0 then Create(p, args[0].u, SSource(false))
        else
          if Is(p, args[1].u, SSeat) then Create(p, args[0].u, SDevice(version)) else ClientAtFault
      case SDevice(_) =>
        // A source is used for one selection only.
        if Is(p, args[0].u, SSource(false)) then Fair(Takes(p, id, if opcode == 0 then Regular else Primary, args[0].u))
        else ClientAtFault
      case SSource(used) => if used then ClientAtFault else Fair(p)
      case _ => ClientAtFault
    else if opcode == 1 then Fair(Destroyed(p, id))
    else if args[0].s in p.offers[id] then Fair(p) else ClientAtFault
  }

  /** A source becomes the selection of this kind. */
  function Takes(p: Peer, device: U32, sel: Selection, source: U32): Peer {
    p.(objs := p.objs[source := SSource(true)], taken := p.taken[(device, sel) := source])
  }

  function Destroyed(p: Peer, offer: U32): Peer {
    p.(offers := p.offers - {offer}, owed := p.owed - {offer},
       shown := map k | k in p.shown && p.shown[k] != offer :: p.shown[k])
  }

  /** A selection event: the offer it names, if it is one, becomes current, and the client owes the destruction of the
      one that was. */
  function Show(p: Peer, device: U32, sel: Selection, id: U32): Peer {
    var k := (device, sel);
    p.(owed := p.owed + (if k in p.shown then {p.shown[k]} else {}),
       shown := if id in p.offers then p.shown[k := id] else p.shown - {k})
  }

  predicate Advertised(p: Peer, name: U32, interface: Name, version: U32) {
    exists a | a in p.adverts :: a.global.name == name && a.interface == interface && version <= a.global.version
  }

  /** bind names an advertised global that is still there, by its own interface, at a version it has. */
  function AdmitBind(p: Peer, name: U32, interface: Name, version: U32, id: U32): Verdict {
    if 1 <= version && Advertised(p, name, interface, version) && name !in p.withdrawn then
      if interface == Ascii("wl_seat") then Create(p, id, SSeat)
      else if interface == Ascii("zwlr_data_control_manager_v1") then Create(p, id, SManager(version))
      else ClientAtFault
    else ClientAtFault
  }

  /** Each of these texts fits one message that carries nothing else. */
  predicate Sendable(mimes: seq<Name>) {
    forall m | m in mimes :: |m| <= MAX_TEXT
  }

  /** A request as it arrives: framed, decoded by its signature to the last byte, then admitted or not. */
  function JudgeRequest(p: Peer, m: Message): Verdict {
    var sig := Signature(p, m.id, m.opcode);
    if !Fits(m) || sig.None? then ClientAtFault
    else
      var (args, end) := ReadArgs(sig.value, m.payload, 0);
      if end == |m.payload| && KindsOf(args) == sig.value then Admit(p, m.id, m.opcode, args) else ClientAtFault
  }

  /** The compositor's own promises: versions start at 1, offers get fresh ids of the server's range. */
  function JudgeEvent(p: Peer, m: Message): Verdict {
    if m.id in p.objs && p.objs[m.id].SRegistry? && m.opcode == 0 then
      var a := AdvertOf(m);
      if a.global.version == 0 then CompositorAtFault
      else Fair(p.(adverts := p.adverts + [a], withdrawn := p.withdrawn - {a.global.name}))
    else if m.id in p.objs && p.objs[m.id].SRegistry? && m.opcode == 1 then
      Fair(p.(withdrawn := p.withdrawn + {Word(m)}))
    else if m.id in p.objs && p.objs[m.id].SDevice? && m.opcode == 0 then
      if Word(m) < SERVER_ID_MIN || Word(m) in p.offers then CompositorAtFault
      else Fair(p.(offers := p.offers[Word(m) := []]))
    else if m.id in p.objs && p.objs[m.id].SDevice? && m.opcode == 1 then
      Fair(Show(p, m.id, Regular, Word(m)))
    else if m.id in p.objs && p.objs[m.id].SDevice? && m.opcode == 3 then
      Fair(Show(p, m.id, Primary, Word(m)))
    else if m.id in p.offers && m.opcode == 0 then
      Fair(p.(offers := p.offers[m.id := p.offers[m.id] + [Text(m)]]))
    else Fair(p)
  }

  function JudgeItem(v: Verdict, item: LogItem): Verdict {
    if !v.Fair? then v
    else match item
      case Event(m, _) => JudgeEvent(v.peer, m)
      case Queued(req) => JudgeRequest(v.peer, MessageOf(req))
  }

  /** The verdict on a whole causal log: whoever breaks the rules first is at fault. */
  function Judge(v: Verdict, log: seq<LogItem>): Verdict
    decreases |log|
  {
    if log == [] then v else Judge(JudgeItem(v, log[0]), log[1..])
  }

  lemma {:induction false} JudgeConcat(v: Verdict, a: seq<LogItem>, b: seq<LogItem>)
    ensures Judge(v, a + b) == Judge(Judge(v, a), b)
    decreases |a|
  {
    hide JudgeItem;
    if a == [] {
      assert a + b == b;
    } else {
      assert (a + b)[1..] == a[1..] + b;
      JudgeConcat(JudgeItem(v, a[0]), a[1..], b);
    }
  }

  lemma {:induction false} JudgeOne(v: Verdict, item: LogItem)
    ensures Judge(v, [item]) == JudgeItem(v, item)
  {
    hide JudgeItem;
    assert [item][1..] == [];
  }

  /** A verdict, once passed, stands. */
  lemma {:induction false} JudgeAfterFault(v: Verdict, log: seq<LogItem>)
    requires !v.Fair?
    ensures Judge(v, log) == v
    decreases |log|
  {
    hide JudgeEvent, JudgeRequest;
    if log != [] {
      JudgeAfterFault(v, log[1..]);
    }
  }

  /** Decoding a request the client encoded gives its arguments back, so only their meaning is judged. */
  lemma {:induction false} JudgeEncoded(p: Peer, r: Request)
    requires Signature(p, r.id, r.opcode) == Some(KindsOf(r.args)) && Fits(MessageOf(r))
    ensures JudgeRequest(p, MessageOf(r)) == Admit(p, r.id, r.opcode, r.args)
  {
    hide EncodeArgs, ReadArgs, Signature, KindsOf;
    ArgsRoundTrip(r.args, []);
    assert [] + EncodeArgs(r.args) == EncodeArgs(r.args);
  }

  /** An offer on an unused source is in order exactly when its text fits one message. */
  lemma {:induction false} OfferJudged(p: Peer, source: U32, mime: Name)
    requires Is(p, source, SSource(false))
    ensures JudgeRequest(p, MessageOf(SourceOffer(source, mime)))
         == if |mime| <= MAX_TEXT then Fair(p) else ClientAtFault
  {
    hide EncodeArg, ReadArgs;
    var r := SourceOffer(source, mime);
    OneTextFits(r, mime);
    assert KindsOf(r.args) == [StrKind];
    if |mime| <= MAX_TEXT {
      JudgeEncoded(p, r);
    }
  }

  lemma {:induction false} OneTextFits(r: Request, text: Name)
    requires r.args == [Str(text)]
    ensures Fits(MessageOf(r)) <==> |text| <= MAX_TEXT
  {
    hide EncodeArg;
    assert EncodeArgs(r.args) == EncodeArg(Str(text)) + EncodeArgs([]);
    EncodedArgIsAligned(Str(text));
  }

  /** Requests of two or fewer words, and bind with either interface name, always fit. */
  lemma {:induction false} WordsFit(r: Request)
    requires |r.args| <= 2 && forall a | a in r.args :: a.UInt?
    ensures Fits(MessageOf(r))
  {
    hide EncodeArg;
    if r.args != [] {
      WordLength(r.args[0]);
      if |r.args| == 2 {
        WordLength(r.args[1]);
        assert EncodeArgs(r.args) == EncodeArg(r.args[0]) + EncodeArgs(r.args[1..]);
        assert EncodeArgs(r.args[1..]) == EncodeArg(r.args[1]) + EncodeArgs(r.args[1..][1..]);
      }
    }
  }

  lemma {:induction false} WordLength(a: Arg)
    requires a.UInt?
    ensures |EncodeArg(a)| == 4
  {
  }

  lemma {:induction false} BindFits(registry: U32, name: U32, interface: Name, version: U32, id: U32)
    requires |interface| <= 100
    ensures Fits(MessageOf(Bind(registry, name, interface, version, id)))
  {
    hide EncodeArg;
    var args := Bind(registry, name, interface, version, id).args;
    WordLength(args[0]);
    EncodedArgIsAligned(args[1]);
    WordLength(args[2]);
    WordLength(args[3]);
    assert args[1..] == [args[1], args[2], args[3]];
    assert args[1..][1..] == [args[2], args[3]];
    assert args[1..][1..][1..] == [args[3]];
    assert args[1..][1..][1..][1..] == [];
    var tail := [args[3]];
    assert EncodeArgs(tail) == EncodeArg(args[3]) + EncodeArgs(tail[1..]);
    assert EncodeArgs(args[1..][1..]) == EncodeArg(args[2]) + EncodeArgs(tail);
    assert EncodeArgs(args[1..]) == EncodeArg(args[1]) + EncodeArgs(args[1..][1..]);
  }
}
