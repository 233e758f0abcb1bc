/** The owner's event loop (src/clipboard/x11.cpp, serve_selection). */
module X11Serve {
  import opened Bytes
  import opened Mime
  import opened X11Server
  import opened X11Owner

  datatype SelRequest = SelRequest(time: U32, requestor: U32, selection: Atom, target: Atom, property: Atom)

  datatype Notify = Notify(time: U32, requestor: U32, selection: Atom, target: Atom, property: Atom)

  /** X requests the owner issues, in order. */
  datatype XOp = ChangeProperty(window: U32, property: Atom, content: Property) | SendNotify(n: Notify)

  datatype OwnerEvent = RequestEvent(req: SelRequest) | ClearEvent | OtherEvent

  /** What the owner keeps across the fork. */
  datatype Owner = Owner(a: Atoms, selection: Atom, targets: Targets, mimes: seq<Name>, bytes: seq<Byte>, time: U32)

  ghost predicate OwnerOk(o: Owner) {
    |o.targets.atoms| == |o.targets.names|
  }

  function NotifyOf(req: SelRequest, property: Atom): Notify {
    Notify(req.time, req.requestor, req.selection, req.target, property)
  }

  /** An obsolete requestor names no property; the target atom then stands in. */
  function PropertyOf(req: SelRequest): Atom {
    if req.property != NONE then req.property else req.target
  }

  function EncodeAtoms(atoms: seq<Atom>): (b: seq<Byte>)
    ensures |b| == 4 * |atoms|
  {
    if atoms == [] then [] else Le32(atoms[0]) + EncodeAtoms(atoms[1..])
  }

  /** A property of 8- or 32-bit units; the unit count is cut to 32 bits. */
  function AtomsProperty(atoms: seq<Atom>): Property {
    var sent := atoms[..|atoms| % 0x1_0000_0000];
    PropertyValue(XA_ATOM, 32, EncodeAtoms(sent))
  }

  function BytesProperty(kind: Atom, bytes: seq<Byte>): Property {
    PropertyValue(kind, 8, bytes[..|bytes| % 0x1_0000_0000])
  }

  /** What a request is answered with: None is a refusal. */
  function ContentFor(o: Owner, req: SelRequest): Option<Property>
    requires OwnerOk(o)
  {
    if req.selection != o.selection then None
    else if req.target == o.a.targets then Some(AtomsProperty(o.targets.atoms))
    else if req.target == o.a.timestamp then Some(PropertyValue(XA_INTEGER, 32, Le32(o.time)))
    else if MatchTarget(o.targets, o.mimes, req.target, o.a) == [] then None
    else Some(BytesProperty(req.target, o.bytes))
  }

  /** Whether answering it hands out the data itself. */
  predicate ServesData(o: Owner, req: SelRequest)
    requires OwnerOk(o)
  {
    req.selection == o.selection && req.target != o.a.targets && req.target != o.a.timestamp
    && MatchTarget(o.targets, o.mimes, req.target, o.a) != []
  }

  /** The X requests of one answer: the property first, then the notification. */
  function Answer(o: Owner, req: SelRequest): seq<XOp>
    requires OwnerOk(o)
  {
    var c := ContentFor(o, req);
    if c.None? then [SendNotify(NotifyOf(req, NONE))]
    else [ChangeProperty(req.requestor, PropertyOf(req), c.value), SendNotify(NotifyOf(req, PropertyOf(req)))]
  }

  /** The loop's result: X requests issued, events taken, data requests served, and why it ended. */
  datatype ServeEnd = Cleared | OneshotDone | Disconnected
  datatype ServedRun = ServedRun(ops: seq<XOp>, taken: seq<OwnerEvent>, served: nat, end: ServeEnd)

  /** The loop over the events still to come; their end is the end of the connection. */
  function ServeRun(o: Owner, oneshot: bool, events: seq<OwnerEvent>): ServedRun
    requires OwnerOk(o)
    decreases |events|
  {
    if events == [] then ServedRun([], [], 0, Disconnected)
    else match events[0]
      case ClearEvent => ServedRun([], [ClearEvent], 0, Cleared)
      case OtherEvent =>
        var r := ServeRun(o, oneshot, events[1..]);
        r.(taken := [OtherEvent] + r.taken)
      case RequestEvent(req) =>
        var n := if ServesData(o, req) then 1 else 0;
        if oneshot && n == 1 then ServedRun(Answer(o, req), [events[0]], 1, OneshotDone)
        else
          var r := ServeRun(o, oneshot, events[1..]);
          ServedRun(Answer(o, req) + r.ops, [events[0]] + r.taken, n + r.served, r.end)
  }

  /** The return value. */
  predicate Succeeded(r: ServedRun) {
    r.served > 0 || r.end.Disconnected?
  }

  /** serve_selection. */
  method ServeSelection(o: Owner, oneshot: bool, events: seq<OwnerEvent>) returns (ok: bool, ops: seq<XOp>, served: nat)
    requires OwnerOk(o)
    ensures var r := ServeRun(o, oneshot, events);
            ops == r.ops && served == r.served && ok == Succeeded(r)
  {
    hide ContentFor, MatchTarget;
    ops, served := [], 0;
    var lost := false;
    var next := 0;
    ghost var whole := ServeRun(o, oneshot, events);
    assert [] + whole.ops == whole.ops;
    while !lost
      invariant next <= |events|
      invariant !lost ==> var r := ServeRun(o, oneshot, events[next..]);
                          whole.ops == ops + r.ops && whole.served == served + r.served && whole.end == r.end
      invariant lost ==> whole.ops == ops && whole.served == served && !whole.end.Disconnected?
      decreases |events| - next, !lost
    {
      if next == |events| {
        assert ops + [] == ops;
        return true, ops, served;
      }
      var ev := events[next];
      ghost var rest := ServeRun(o, oneshot, events[next + 1..]);
      assert events[next..][0] == ev && events[next..][1..] == events[next + 1..];
      next := next + 1;
      match ev {
        case OtherEvent =>
        case ClearEvent =>
          assert ops + [] == ops;
          lost := true;
        case RequestEvent(req) =>
          Assoc(ops, Answer(o, req), rest.ops);
          var reply := AnswerRequest(o, req);
          ops := ops + reply;
          if ServesData(o, req) {
            served := served + 1;
            if oneshot {
              lost := true;
            }
          }
      }
    }
    ok := served > 0 || !lost;
  }

  /** One SelectionRequest, branch by branch. */
  method AnswerRequest(o: Owner, req: SelRequest) returns (ops: seq<XOp>)
    requires OwnerOk(o)
    ensures ops == Answer(o, req)
  {
    hide MatchTarget, EncodeAtoms;
    if req.selection != o.selection {
      return [SendNotify(NotifyOf(req, NONE))];
    }
    var prop := if req.property != NONE then req.property else req.target;
    if req.target == o.a.targets {
      ops := [ChangeProperty(req.requestor, prop, AtomsProperty(o.targets.atoms))];
      ops := ops + [SendNotify(NotifyOf(req, prop))];
    } else if req.target == o.a.timestamp {
      ops := [ChangeProperty(req.requestor, prop, PropertyValue(XA_INTEGER, 32, Le32(o.time)))];
      ops := ops + [SendNotify(NotifyOf(req, prop))];
    } else {
      var mime := MatchTarget(o.targets, o.mimes, req.target, o.a);
      if mime == [] {
        return [SendNotify(NotifyOf(req, NONE))];
      }
      ops := [ChangeProperty(req.requestor, prop, BytesProperty(req.target, o.bytes))];
      ops := ops + [SendNotify(NotifyOf(req, prop))];
    }
  }

  // ---- What every run guarantees ------------------------------------------

  function RequestsIn(events: seq<OwnerEvent>): seq<SelRequest> {
    if events == [] then []
    else (if events[0].RequestEvent? then [events[0].req] else []) + RequestsIn(events[1..])
  }

  lemma {:induction false} RequestsCons(ev: OwnerEvent, events: seq<OwnerEvent>)
    ensures RequestsIn([ev] + events) == if ev.RequestEvent? then [ev.req] + RequestsIn(events) else RequestsIn(events)
  {
    assert ([ev] + events)[1..] == events;
  }

  function DataRequests(o: Owner, reqs: seq<SelRequest>): nat
    requires OwnerOk(o)
  {
    if reqs == [] then 0 else (if ServesData(o, reqs[0]) then 1 else 0) + DataRequests(o, reqs[1..])
  }

  /** The X requests answer these selection requests one by one: each gets one notification echoing its
      requestor, selection and target; when that names a property, the property was just written, on the
      requestor's window, with what the target asks for; and nothing else is written. */
  ghost predicate AnswersInOrder(o: Owner, reqs: seq<SelRequest>, ops: seq<XOp>)
    requires OwnerOk(o)
    decreases |reqs|
  {
    if reqs == [] then ops == []
    else
      var req := reqs[0];
      var c := ContentFor(o, req);
      var n := if c.Some? then 2 else 1;
      && |ops| >= n
      && ops[n - 1] == SendNotify(Notify(req.time, req.requestor, req.selection, req.target,
                                         if c.None? then NONE else PropertyOf(req)))
      && (c.Some? ==> ops[0] == ChangeProperty(req.requestor, PropertyOf(req), c.value))
      && AnswersInOrder(o, reqs[1..], ops[n..])
  }

  lemma {:induction false} ServeAnswersEach(o: Owner, oneshot: bool, events: seq<OwnerEvent>)
    requires OwnerOk(o)
    ensures var r := ServeRun(o, oneshot, events);
            AnswersInOrder(o, RequestsIn(r.taken), r.ops) && r.served == DataRequests(o, RequestsIn(r.taken))
    decreases |events|
  {
    hide ContentFor, ServesData, RequestsIn, Answer, AnswersInOrder, DataRequests;
    NothingAnswered(o);
    if events != [] {
      var rest := ServeRun(o, oneshot, events[1..]);
      ServeAnswersEach(o, oneshot, events[1..]);
      RequestsCons(events[0], []);
      RequestsCons(events[0], rest.taken);
      assert [events[0]] + [] == [events[0]];
      if events[0].RequestEvent? {
        var req := events[0].req;
        AnswersCons(o, req, [], []);
        AnswersCons(o, req, RequestsIn(rest.taken), rest.ops);
        assert Answer(o, req) + [] == Answer(o, req) && [req] + [] == [req];
      }
    }
  }

  lemma {:induction false} ServeEnds(o: Owner, oneshot: bool, events: seq<OwnerEvent>)
    requires OwnerOk(o)
    ensures var r := ServeRun(o, oneshot, events);
            && (oneshot ==> r.served <= 1 && (r.end.OneshotDone? <==> r.served == 1))
            && (!oneshot ==> !r.end.OneshotDone?)
    decreases |events|
  {
    hide ServesData, Answer;
    if events != [] {
      ServeEnds(o, oneshot, events[1..]);
    }
  }

  lemma {:induction false} ServeTakes(o: Owner, oneshot: bool, events: seq<OwnerEvent>)
    requires OwnerOk(o)
    ensures var r := ServeRun(o, oneshot, events);
            && |r.taken| <= |events| && r.taken == events[..|r.taken|]
            && (r.end.Disconnected? ==> |r.taken| == |events|)
    decreases |events|
  {
    hide ServesData, Answer, OwnerOk;
    if events != [] {
      ServeTakes(o, oneshot, events[1..]);
      TakenCons(events, []);
      TakenCons(events, ServeRun(o, oneshot, events[1..]).taken);
    }
  }

  lemma {:induction false} TakenCons(events: seq<OwnerEvent>, taken: seq<OwnerEvent>)
    requires events != [] && taken <= events[1..]
    ensures [events[0]] + taken == events[..|taken| + 1] && |[events[0]] + taken| == |taken| + 1
    ensures taken == [] ==> [events[0]] == events[..1]
  {
  }

  lemma {:induction false} ServeClears(o: Owner, oneshot: bool, events: seq<OwnerEvent>)
    requires OwnerOk(o)
    ensures var r := ServeRun(o, oneshot, events);
            r.end.Cleared? <==> ClearEvent in r.taken
    decreases |events|
  {
    hide ServesData, Answer;
    if events != [] {
      ServeClears(o, oneshot, events[1..]);
    }
  }

  /** Every run takes the events in order, answers each request among them exactly once and in full, serves at
      most one data request in oneshot mode, and ends with a clear, with the one serving, or with the connection. */
  lemma {:induction false} ServeAnswersAll(o: Owner, oneshot: bool, events: seq<OwnerEvent>)
    requires OwnerOk(o)
    ensures var r := ServeRun(o, oneshot, events);
            && r.taken <= events
            && AnswersInOrder(o, RequestsIn(r.taken), r.ops)
            && r.served == DataRequests(o, RequestsIn(r.taken))
            && (oneshot ==> r.served <= 1 && (r.end.OneshotDone? <==> r.served == 1))
            && (!oneshot ==> !r.end.OneshotDone?)
            && (r.end.Cleared? <==> ClearEvent in r.taken)
            && (r.end.Disconnected? ==> r.taken == events)
  {
    hide ServeRun;
    ServeAnswersEach(o, oneshot, events);
    ServeEnds(o, oneshot, events);
    ServeTakes(o, oneshot, events);
    ServeClears(o, oneshot, events);
  }

  lemma {:induction false} NothingAnswered(o: Owner)
    requires OwnerOk(o)
    ensures RequestsIn([]) == [] && AnswersInOrder(o, [], []) && DataRequests(o, []) == 0
  {
  }

  lemma {:induction false} AnswersCons(o: Owner, req: SelRequest, reqs: seq<SelRequest>, ops: seq<XOp>)
    requires OwnerOk(o) && AnswersInOrder(o, reqs, ops)
    ensures AnswersInOrder(o, [req] + reqs, Answer(o, req) + ops)
    ensures DataRequests(o, [req] + reqs) == (if ServesData(o, req) then 1 else 0) + DataRequests(o, reqs)
  {
    hide ContentFor, ServesData;
    assert ([req] + reqs)[1..] == reqs;
    var n := |Answer(o, req)|;
    assert (Answer(o, req) + ops)[n..] == ops;
  }

  // ---- What is due, apart from the loop -----------------------------------

  /** An owner as AcquireSelection makes it on a server with numbers left. */
  ghost predicate OwnerSound(t: AtomTable, o: Owner) {
    && TableOk(t) && Loaded(t, o.a) && Parallel(t, o.targets) && o.targets.names == Dedup(Candidates(o.mimes))
    && forall m | m in o.mimes :: m != []
  }

  /** The requests that get a property: for the owner's selection, a target it advertises, TIMESTAMP, or STRING or TEXT
      of a text. */
  predicate Due(o: Owner, req: SelRequest) {
    && req.selection == o.selection
    && (req.target in o.targets.atoms || req.target == o.a.timestamp
        || (HasText(o.mimes) && (req.target == o.a.stringAtom || req.target == o.a.text)))
  }

  predicate MetaTarget(o: Owner, target: Atom) {
    target == o.a.targets || target == o.a.timestamp
  }

  /** These bytes are 32-bit units, one for each atom. */
  ghost predicate Holds(b: seq<Byte>, atoms: seq<Atom>) {
    |b| == 4 * |atoms| && forall i | 0 <= i < |atoms| :: FromLe32(b[4 * i..4 * i + 4]) == atoms[i]
  }

  /** What the property holds: of TARGETS the listed atoms (type ATOM, 4, in units of 32 bits), of TIMESTAMP the owner's
      time (type INTEGER, 19), and of every other target the payload, of that type and in bytes. Unit counts have 32
      bits. */
  ghost predicate RightContent(o: Owner, target: Atom, p: Property) {
    if target == o.a.targets then
      var atoms := o.targets.atoms;
      p.kind == 4 && p.format == 32 && Holds(p.value, atoms[..|atoms| % 0x1_0000_0000])
    else if target == o.a.timestamp then
      p.kind == 19 && p.format == 32 && |p.value| == 4 && FromLe32(p.value) == o.time
    else
      p.kind == target && p.format == 8 && p.value == o.bytes[..|o.bytes| % 0x1_0000_0000]
  }

  /** Request by request: a due one has its property written on the requestor's window, under the property it names or
      else the one of the target's atom, and is then told so; any other is told None and nothing is written. */
  ghost predicate HandsOut(o: Owner, reqs: seq<SelRequest>, ops: seq<XOp>)
    decreases |reqs|
  {
    if reqs == [] then ops == []
    else
      var req := reqs[0];
      var where := if req.property == 0 then req.target else req.property;
      if Due(o, req) then
        && |ops| >= 2 && where != 0
        && ops[0].ChangeProperty? && ops[0].window == req.requestor && ops[0].property == where
        && RightContent(o, req.target, ops[0].content)
        && ops[1] == SendNotify(Notify(req.time, req.requestor, req.selection, req.target, where))
        && HandsOut(o, reqs[1..], ops[2..])
      else
        && |ops| >= 1
        && ops[0] == SendNotify(Notify(req.time, req.requestor, req.selection, req.target, 0))
        && HandsOut(o, reqs[1..], ops[1..])
  }

  /** How many of these requests are due the data itself. */
  function HandedOut(o: Owner, reqs: seq<SelRequest>): nat {
    if reqs == [] then 0
    else (if Due(o, reqs[0]) && !MetaTarget(o, reqs[0].target) then 1 else 0) + HandedOut(o, reqs[1..])
  }

  lemma {:induction false} EncodedAtomsHold(atoms: seq<Atom>)
    ensures Holds(EncodeAtoms(atoms), atoms)
    decreases |atoms|
  {
    hide Le32, FromLe32;
    if atoms != [] {
      var rest := EncodeAtoms(atoms[1..]);
      var b := EncodeAtoms(atoms);
      EncodedAtomsHold(atoms[1..]);
      Le32RoundTrip(atoms[0]);
      assert b == Le32(atoms[0]) + rest && b[0..4] == Le32(atoms[0]);
      forall i | 1 <= i < |atoms| ensures FromLe32(b[4 * i..4 * i + 4]) == atoms[i] {
        assert b[4 * i..4 * i + 4] == rest[4 * (i - 1)..4 * (i - 1) + 4];
      }
    }
  }

  /** A request gets a property exactly when one is due, and then the right one; it is for data exactly when the
      property is neither of the two about the selection. */
  lemma {:induction false} ContentIsDue(t: AtomTable, o: Owner, req: SelRequest)
    requires OwnerSound(t, o)
    ensures ContentFor(o, req).Some? <==> Due(o, req)
    ensures Due(o, req) ==> RightContent(o, req.target, ContentFor(o, req).value) && req.target != 0
    ensures ServesData(o, req) <==> Due(o, req) && !MetaTarget(o, req.target)
  {
    hide TableOk, Dedup, HasText, MatchTarget, Le32, FromLe32, EncodeAtoms, Holds;
    AdvertisedIffAnswered(t, o.a, o.mimes, o.targets, req.target);
    var n := |o.targets.atoms| % 0x1_0000_0000;
    EncodedAtomsHold(o.targets.atoms[..n]);
    Le32RoundTrip(o.time);
    if Due(o, req) {
      TargetIsSome(t, o, req.target);
    }
  }

  /** None is no target. */
  lemma {:induction false} TargetIsSome(t: AtomTable, o: Owner, target: Atom)
    requires TableOk(t) && Loaded(t, o.a) && Parallel(t, o.targets)
    requires target in o.targets.atoms || target == o.a.timestamp || target == o.a.stringAtom || target == o.a.text
    ensures target != 0
  {
    if target in o.targets.atoms {
      var i :| 0 <= i < |o.targets.atoms| && o.targets.atoms[i] == target;
      assert Named(t, o.targets.names[i], target);
    }
  }

  lemma {:induction false} SoundIsOk(t: AtomTable, o: Owner)
    requires OwnerSound(t, o)
    ensures OwnerOk(o)
  {
  }

  lemma {:induction false} AnswersHandOut(t: AtomTable, o: Owner, reqs: seq<SelRequest>, ops: seq<XOp>)
    requires OwnerSound(t, o) && AnswersInOrder(o, reqs, ops)
    ensures HandsOut(o, reqs, ops) && DataRequests(o, reqs) == HandedOut(o, reqs)
    decreases |reqs|
  {
    hide OwnerSound, ContentFor, Due, RightContent, ServesData, MetaTarget;
    if reqs != [] {
      assert OwnerOk(o) by { SoundIsOk(t, o); }
      ContentIsDue(t, o, reqs[0]);
      AnswersHandOut(t, o, reqs[1..], ops[if ContentFor(o, reqs[0]).Some? then 2 else 1..]);
    }
  }

  /** Every run hands out what is due to the requests it took, in order and nothing else, and counts those for data. */
  lemma {:induction false} ServeHandsOut(t: AtomTable, o: Owner, oneshot: bool, events: seq<OwnerEvent>)
    requires OwnerSound(t, o)
    ensures var r := ServeRun(o, oneshot, events);
            && r.taken <= events && HandsOut(o, RequestsIn(r.taken), r.ops)
            && r.served == HandedOut(o, RequestsIn(r.taken))
  {
    hide OwnerSound, ServeRun, AnswersInOrder, HandsOut, DataRequests, HandedOut, RequestsIn;
    assert OwnerOk(o) by { SoundIsOk(t, o); }
    ServeAnswersAll(o, oneshot, events);
    var r := ServeRun(o, oneshot, events);
    AnswersHandOut(t, o, RequestsIn(r.taken), r.ops);
  }

  /** serve_selection returns false exactly when a SelectionClear arrives before any data request was served. */
  lemma {:induction false} FalseIffClearedUnserved(o: Owner, oneshot: bool, events: seq<OwnerEvent>)
    requires OwnerOk(o)
    ensures !Succeeded(ServeRun(o, oneshot, events)) <==> exists k :: ClearedUnservedAt(o, events, k)
    decreases |events|
  {
    hide ServesData, ServeRun;
    ServeAnswersAll(o, oneshot, events);
    ServeShape(o, oneshot, events);
    var r := ServeRun(o, oneshot, events);
    if r.served == 0 && !r.end.Disconnected? {
      assert ClearedUnservedAt(o, events, |r.taken| - 1);
    }
    if k :| ClearedUnservedAt(o, events, k) {
      ClearedBeforeServing(o, oneshot, events, k);
    }
  }

  /** The event at k is a SelectionClear, the first one, and no request before it is for data. */
  ghost predicate ClearedUnservedAt(o: Owner, events: seq<OwnerEvent>, k: int)
    requires OwnerOk(o)
  {
    0 <= k < |events| && events[k].ClearEvent? && ClearEvent !in events[..k] &&
        DataRequests(o, RequestsIn(events[..k])) == 0
  }

  /** A run that ends with a clear took everything up to it and nothing more. */
  lemma {:induction false} ServeShape(o: Owner, oneshot: bool, events: seq<OwnerEvent>)
    requires OwnerOk(o)
    ensures var r := ServeRun(o, oneshot, events);
            r.end.Cleared? && r.served == 0 ==> r.taken != [] && ClearedUnservedAt(o, events, |r.taken| - 1)
    decreases |events|
  {
    hide ServesData, Answer, ClearedUnservedAt, OwnerOk;
    var r := ServeRun(o, oneshot, events);
    if events != [] && r.end.Cleared? && r.served == 0 {
      if events[0].ClearEvent? {
        ClearedAtOnce(o, events);
      } else {
        ServeShape(o, oneshot, events[1..]);
        var rest := ServeRun(o, oneshot, events[1..]);
        var k := |rest.taken| - 1;
        ClearedLater(o, events, k);
      }
    }
  }

  lemma {:induction false} ClearedAtOnce(o: Owner, events: seq<OwnerEvent>)
    requires OwnerOk(o) && events != [] && events[0].ClearEvent?
    ensures ClearedUnservedAt(o, events, 0)
  {
    assert events[..0] == [];
  }

  /** Looking one event further back. */
  lemma {:induction false} ClearedLater(o: Owner, events: seq<OwnerEvent>, k: int)
    requires OwnerOk(o) && events != [] && k >= 0
    requires !events[0].ClearEvent? && (events[0].RequestEvent? ==> !ServesData(o, events[0].req))
    ensures ClearedUnservedAt(o, events, k + 1) <==> ClearedUnservedAt(o, events[1..], k)
  {
    hide ServesData, RequestsIn;
    if k < |events| - 1 {
      var before := events[1..][..k];
      assert events[..k + 1] == [events[0]] + before;
      RequestsCons(events[0], before);
      if events[0].RequestEvent? {
        DataCons(o, events[0].req, RequestsIn(before));
      }
    }
  }

  lemma {:induction false} DataCons(o: Owner, req: SelRequest, reqs: seq<SelRequest>)
    requires OwnerOk(o)
    ensures DataRequests(o, [req] + reqs) == (if ServesData(o, req) then 1 else 0) + DataRequests(o, reqs)
  {
    hide ServesData;
    assert ([req] + reqs)[1..] == reqs;
  }

  lemma {:induction false} ClearedBeforeServing(o: Owner, oneshot: bool, events: seq<OwnerEvent>, k: nat)
    requires OwnerOk(o) && ClearedUnservedAt(o, events, k)
    ensures var r := ServeRun(o, oneshot, events); r.served == 0 && r.end.Cleared?
    decreases |events|
  {
    hide ServesData, Answer, RequestsIn;
    if k > 0 {
      assert events[0] == events[..k][0];
      if events[0].RequestEvent? {
        var before := events[1..][..k - 1];
        assert events[..k] == [events[0]] + before;
        RequestsCons(events[0], before);
        DataCons(o, events[0].req, RequestsIn(before));
      }
      ClearedLater(o, events, k - 1);
      ClearedBeforeServing(o, oneshot, events[1..], k - 1);
    }
  }
}
