/** The requestor of an X selection (src/clipboard/x11.cpp: request_and_wait, read_property, paste), run against
    a server and an owner that move on their own. */
module X11Paste {
  import opened Bytes
  import opened Mime
  import opened X11Server
  import opened X11Serve

  // ---- The world around the requestor -------------------------------------

  /** Events waiting on the requestor's connection. */
  datatype Arrival = Notified(property: Atom) | Noise

  /** The owner as the server and its own loop leave it: whether the selection is still its, whether the loop still
      runs, and the events it has not taken yet. A loop that ends gives the selection up. */
  datatype OwnerSide = OwnerSide(owns: bool, alive: bool, queue: seq<OwnerEvent>)

  /** Window properties, the owner, and arrivals at the requestor. */
  datatype World = World(props: map<(U32, Atom), Property>, owner: OwnerSide, arrivals: seq<Arrival>)

  /** What may happen besides the requestor's own steps: the owner's loop takes its next event, another client converts
      the selection, the selection is taken from the owner, or some other event reaches the requestor. */
  datatype EnvStep = OwnerTurn | ForeignRequest(req: SelRequest) | SelectionLost | NoiseArrives

  /** The two fixed parties: the owner, in its mode, and the requestor's window and atoms. */
  datatype Parties = Parties(t: AtomTable, o: Owner, oneshot: bool, me: U32, a: Atoms)

  /** The owner's side of a step. A turn is one pass of serve_selection's loop. */
  function OwnerMove(p: Parties, v: OwnerSide, s: EnvStep): OwnerSide
    requires OwnerOk(p.o)
  {
    match s
    case NoiseArrives => v
    case ForeignRequest(req) =>
      if v.owns && req.requestor != p.me then v.(queue := v.queue + [RequestEvent(req)]) else v
    case SelectionLost => if v.owns then v.(owns := false, queue := v.queue + [ClearEvent]) else v
    case OwnerTurn =>
      if !v.alive || v.queue == [] then v
      else if EndsLoop(p, v.queue[0]) then OwnerSide(false, false, v.queue[1..])
      else v.(queue := v.queue[1..])
  }

  /** Taking this event ends the owner's loop. */
  predicate EndsLoop(p: Parties, ev: OwnerEvent)
    requires OwnerOk(p.o)
  {
    ev.ClearEvent? || (ev.RequestEvent? && p.oneshot && ServesData(p.o, ev.req))
  }

  /** The X requests of the owner's next turn. */
  function TurnOps(p: Parties, v: OwnerSide): seq<XOp>
    requires OwnerOk(p.o)
  {
    if v.alive && v.queue != [] && v.queue[0].RequestEvent? then Answer(p.o, v.queue[0].req) else []
  }

  /** Turn by turn, the owner issues what serve_selection issues for the same events. */
  lemma {:induction false} TurnIsOnePass(p: Parties, v: OwnerSide, more: seq<OwnerEvent>)
    requires OwnerOk(p.o) && v.alive && v.queue != []
    ensures var r := ServeRun(p.o, p.oneshot, v.queue + more);
            var v' := OwnerMove(p, v, OwnerTurn);
            if v'.alive then
              r.ops == TurnOps(p, v) + ServeRun(p.o, p.oneshot, v'.queue + more).ops
            else
              r.ops == TurnOps(p, v) && !r.end.Disconnected?
  {
    hide Answer, ServesData;
    var events := v.queue + more;
    assert events[0] == v.queue[0] && events[1..] == v.queue[1..] + more;
    assert forall ops: seq<XOp> :: [] + ops == ops;
  }

  function ApplyOp(w: World, me: U32, op: XOp): World {
    match op
    case ChangeProperty(window, property, content) => w.(props := w.props[(window, property) := content])
    case SendNotify(n) => if n.requestor == me then w.(arrivals := w.arrivals + [Notified(n.property)]) else w
  }

  function ApplyOps(w: World, me: U32, ops: seq<XOp>): World
    decreases |ops|
  {
    if ops == [] then w else ApplyOps(ApplyOp(w, me, ops[0]), me, ops[1..])
  }

  function EnvMove(p: Parties, w: World, s: EnvStep): World
    requires OwnerOk(p.o)
  {
    var w' := w.(owner := OwnerMove(p, w.owner, s));
    match s
    case NoiseArrives => w.(arrivals := w.arrivals + [Noise])
    case OwnerTurn => ApplyOps(w', p.me, TurnOps(p, w.owner))
    case _ => w'
  }

  function EnvMoves(p: Parties, w: World, steps: seq<EnvStep>): World
    requires OwnerOk(p.o)
    decreases |steps|
  {
    if steps == [] then w else EnvMoves(p, EnvMove(p, w, steps[0]), steps[1..])
  }

  /** Taking the first arrival commutes with whatever the others do, so a step between a notification's arrival and its
      being taken is as good as one right after. */
  lemma {:induction false} TakingCommutes(p: Parties, w: World, steps: seq<EnvStep>)
    requires OwnerOk(p.o) && w.arrivals != []
    ensures var r := EnvMoves(p, w, steps);
            && r.arrivals != [] && r.arrivals[0] == w.arrivals[0]
            && EnvMoves(p, w.(arrivals := w.arrivals[1..]), steps) == r.(arrivals := r.arrivals[1..])
    decreases |steps|
  {
    hide OwnerMove, TurnOps, ApplyOps;
    if steps != [] {
      var w' := w.(arrivals := w.arrivals[1..], owner := OwnerMove(p, w.owner, steps[0]));
      var v := w.(owner := OwnerMove(p, w.owner, steps[0]));
      OpsCommute(v, p.me, TurnOps(p, w.owner));
      assert (w.arrivals + [Noise])[1..] == w.arrivals[1..] + [Noise];
      TakingCommutes(p, EnvMove(p, w, steps[0]), steps[1..]);
    }
  }

  lemma {:induction false} OpsCommute(w: World, me: U32, ops: seq<XOp>)
    requires w.arrivals != []
    ensures var r := ApplyOps(w, me, ops);
            && r.arrivals != [] && r.arrivals[0] == w.arrivals[0]
            && ApplyOps(w.(arrivals := w.arrivals[1..]), me, ops) == r.(arrivals := r.arrivals[1..])
    decreases |ops|
  {
    if ops != [] {
      var next := ApplyOp(w, me, ops[0]);
      assert ApplyOp(w.(arrivals := w.arrivals[1..]), me, ops[0]) == next.(arrivals := next.arrivals[1..]);
      OpsCommute(next, me, ops[1..]);
    }
  }

  // ---- request_and_wait ---------------------------------------------------

  datatype WaitEnd = Granted | Denied | TimedOut

  /** The poll loop: events are taken until a SelectionNotify; with none waiting, the world moves on; when it has
      no moves left the timeout strikes. */
  function WaitRun(p: Parties, w: World, env: seq<EnvStep>): (WaitEnd, World, seq<EnvStep>)
    requires OwnerOk(p.o)
    decreases |env|, |w.arrivals|
  {
    if w.arrivals != [] then
      var w' := w.(arrivals := w.arrivals[1..]);
      match w.arrivals[0]
      case Noise => WaitRun(p, w', env)
      case Notified(property) => (if property == NONE then Denied else Granted, w', env)
    else if env == [] then (TimedOut, w, env)
    else WaitRun(p, EnvMove(p, w, env[0]), env[1..])
  }

  function OurRequest(p: Parties, selection: Atom, target: Atom): SelRequest {
    SelRequest(0, p.me, selection, target, p.a.wlSelection)
  }

  /** ConvertSelection: the server passes the request to the selection's owner, and without one refuses at once. */
  function Convert(p: Parties, w: World, selection: Atom, target: Atom): World {
    if w.owner.owns && selection == p.o.selection then
      w.(owner := w.owner.(queue := w.owner.queue + [RequestEvent(OurRequest(p, selection, target))]))
    else w.(arrivals := w.arrivals + [Notified(NONE)])
  }

  // ---- read_property ------------------------------------------------------

  /** What read_property returns for the stored property: nothing for a missing one or an INCR announcement. */
  function ReadValue(a: Atoms, stored: Option<Property>): seq<Byte> {
    match stored
    case None => []
    case Some(v) => if v.kind == a.incr then [] else v.value[..ReadLength(|v.value|)]
  }

  function Stored(w: World, me: U32, property: Atom): Option<Property> {
    if (me, property) in w.props then Some(w.props[(me, property)]) else None
  }

  /** The properties after the read: the property is deleted by the reply that says nothing is left, which for an INCR
      announcement must be the first. */
  function AfterRead(a: Atoms, w: World, me: U32, property: Atom): World {
    if (me, property) in w.props then
      var v := w.props[(me, property)];
      if v.kind == a.incr && GetProperty(v.kind, v.value, 0, READ_UNITS).value.bytesAfter > 0 then w
      else w.(props := w.props - {(me, property)})
    else w
  }

  // ---- paste --------------------------------------------------------------

  datatype PasteEnd =
    | Ok(available: seq<Name>, mime: Name, bytes: seq<Byte>)
    | NoAnswer(wait: WaitEnd)  // the request for TARGETS failed
    | BadTargets               // the TARGETS property is empty or not a list of atoms
    | NothingUsable
    | NoData(available: seq<Name>, wait: WaitEnd)  // the request for the data failed

  function DecodeAtoms(raw: seq<Byte>): seq<Atom>
    requires |raw| % 4 == 0
  {
    if raw == [] then [] else [FromLe32(raw[..4])] + DecodeAtoms(raw[4..])
  }

  /** The type an atom stands for; None for the atom None and for the meta targets. */
  function TypeOf(t: AtomTable, a: Atoms, x: Atom): Option<Name> {
    if x == NONE then None
    else if x == a.utf8String then Some(TEXT_PLAIN_UTF8)
    else if x == a.stringAtom then Some(TEXT_PLAIN)
    else if x == a.text then Some(TEXT)
    else if x == a.targets || x == a.timestamp || x == a.multiple then None
    else Some(AtomName(t, x))
  }

  function TypesOf(t: AtomTable, a: Atoms, xs: seq<Atom>): seq<Name> {
    if xs == [] then []
    else
      var n := TypeOf(t, a, xs[0]);
      (if n.Some? then [n.value] else []) + TypesOf(t, a, xs[1..])
  }

  function TargetFor(t: AtomTable, a: Atoms, mime: Name): Atom {
    if mime == TEXT_PLAIN_UTF8 then a.utf8String
    else if mime == TEXT_PLAIN then a.stringAtom
    else if mime == TEXT then a.text
    else Lookup(t, Carried(mime))
  }

  // ---- Types and targets --------------------------------------------------

  /** The type that an atom of this name stands for. */
  function TypeOfName(n: Name): Option<Name> {
    if n == Ascii("UTF8_STRING") then Some(Ascii("text/plain;charset=utf-8"))
    else if n == Ascii("STRING") then Some(Ascii("text/plain"))
    else if n == Ascii("TEXT") then Some(Ascii("TEXT"))
    else if n == Ascii("TARGETS") || n == Ascii("TIMESTAMP") || n == Ascii("MULTIPLE") then None
    else Some(n)
  }

  lemma {:induction false} TypeOfIsByName(t: AtomTable, a: Atoms, n: Name, x: Atom)
    requires TableOk(t) && Loaded(t, a) && Named(t, n, x)
    ensures TypeOf(t, a, x) == TypeOfName(n)
  {
    hide TableOk, Ascii;
    assert Named(t, STRING, a.stringAtom) by { StringNamed(t, a); }
    SameNameIffSameAtom(t, n, x, UTF8_STRING, a.utf8String);
    SameNameIffSameAtom(t, n, x, STRING, a.stringAtom);
    SameNameIffSameAtom(t, n, x, TEXT, a.text);
    SameNameIffSameAtom(t, n, x, TARGETS, a.targets);
    SameNameIffSameAtom(t, n, x, TIMESTAMP, a.timestamp);
    SameNameIffSameAtom(t, n, x, MULTIPLE, a.multiple);
  }

  lemma {:induction false} StringNamed(t: AtomTable, a: Atoms)
    requires TableOk(t) && Loaded(t, a)
    ensures Named(t, STRING, a.stringAtom)
  {
  }

  /** An unknown atom has the empty name. */
  lemma {:induction false} TypeOfUnknown(t: AtomTable, a: Atoms, x: Atom)
    requires TableOk(t) && Loaded(t, a) && (x == 0 || x !in t.names)
    ensures TypeOf(t, a, x) == if x == 0 then None else Some([])
  {
  }

  lemma {:induction false} TypesMembers(t: AtomTable, a: Atoms, xs: seq<Atom>, mime: Name)
    ensures mime in TypesOf(t, a, xs) <==> exists x :: x in xs && TypeOf(t, a, x) == Some(mime)
    decreases |xs|
  {
    hide TypeOf;
    if xs != [] {
      TypesMembers(t, a, xs[1..], mime);
      assert xs == [xs[0]] + xs[1..];
    }
  }

  /** The target asked for a type stands for that very type. */
  lemma {:induction false} TargetMeansType(t: AtomTable, a: Atoms, x: Atom, mime: Name)
    requires TableOk(t) && Loaded(t, a) && TypeOf(t, a, x) == Some(mime) && mime != []
    ensures TypeOf(t, a, TargetFor(t, a, mime)) == Some(mime)
    ensures TargetFor(t, a, mime) == x || x == Lookup(t, mime)
    ensures TargetFor(t, a, mime) != x ==> mime == Ascii("text/plain") || mime == Ascii("text/plain;charset=utf-8")
  {
    hide TableOk, Ascii;
    NamesDiffer();
    TextNamesDiffer();
    assert Named(t, STRING, a.stringAtom) by { StringNamed(t, a); }
    SameNameIffSameAtom(t, UTF8_STRING, a.utf8String, STRING, a.stringAtom);
    SameNameIffSameAtom(t, UTF8_STRING, a.utf8String, TEXT, a.text);
    SameNameIffSameAtom(t, STRING, a.stringAtom, TEXT, a.text);
    if AtomName(t, x) == mime {
      assert Named(t, mime, x) && Carried(mime) == mime by { NameOfAtom(t, x); }
      TypeOfIsByName(t, a, mime, x);
      SameNameIffSameAtom(t, mime, x, TEXT, a.text);
    }
  }

  lemma {:induction false} NameOfAtom(t: AtomTable, x: Atom)
    requires TableOk(t) && AtomName(t, x) != []
    ensures Named(t, AtomName(t, x), x) && Carried(AtomName(t, x)) == AtomName(t, x)
  {
  }

  lemma {:induction false} TextNamesDiffer()
    ensures TEXT_PLAIN_UTF8 != TEXT_PLAIN && TEXT_PLAIN_UTF8 != TEXT && TEXT_PLAIN != TEXT
  {
    assert |TEXT_PLAIN_UTF8| == 24 && |TEXT_PLAIN| == 10 && |TEXT| == 4;
  }

  /** Whatever atoms an owner lists, for every type read off them the paste asks for an atom that stands for that type.
      It asks for a listed one exactly unless the type is text/plain, plain or with the UTF-8 charset, and its classic
      atom, STRING or UTF8_STRING, is not listed; then the type was listed by the atom spelled like it. */
  lemma {:induction false} TargetIsListedIff(t: AtomTable, a: Atoms, xs: seq<Atom>, mime: Name)
    requires TableOk(t) && Loaded(t, a) && mime in TypesOf(t, a, xs) && mime != []
    ensures TypeOf(t, a, TargetFor(t, a, mime)) == Some(mime)
    ensures TargetFor(t, a, mime) in xs
       <==> (mime == Ascii("text/plain") ==> 31 in xs)
            && (mime == Ascii("text/plain;charset=utf-8") ==> Lookup(t, Ascii("UTF8_STRING")) in xs)
    ensures TargetFor(t, a, mime) !in xs ==> Lookup(t, mime) in xs
  {
    hide TableOk, Ascii, TypeOf;
    TypesMembers(t, a, xs, mime);
    TextNamesDiffer();
    var x :| x in xs && TypeOf(t, a, x) == Some(mime);
    TargetMeansType(t, a, x, mime);
  }

  /** An owner that lists its text by the atom text/plain alone is asked for STRING, which it does not list. */
  lemma {:induction false} SpelledPlainIsAskedForString(t: AtomTable, a: Atoms, x: Atom)
    requires TableOk(t) && Loaded(t, a) && Named(t, Ascii("text/plain"), x)
    ensures TypesOf(t, a, [a.targets, x]) == [Ascii("text/plain")]
    ensures TargetFor(t, a, Ascii("text/plain")) == 31 && 31 !in [a.targets, x]
  {
    hide TableOk, Ascii;
    assert |STRING| == 6 && |TEXT_PLAIN| == 10 && |TARGETS| == 7 by { NameLengths(); }
    var xs := [a.targets, x];
    assert xs[1..] == [x] && xs[1..][1..] == [];
    assert Named(t, STRING, a.stringAtom) by { StringNamed(t, a); }
    TypeOfIsByName(t, a, TARGETS, a.targets);
    TypeOfIsByName(t, a, TEXT_PLAIN, x);
    SameNameIffSameAtom(t, TEXT_PLAIN, x, STRING, a.stringAtom);
    SameNameIffSameAtom(t, TARGETS, a.targets, STRING, a.stringAtom);
    NamesDiffer();
    PlainIsItself();
    assert TypesOf(t, a, []) == [];
  }

  lemma {:induction false} NameLengths()
    ensures |STRING| == 6 && |TEXT_PLAIN| == 10 && |TARGETS| == 7
  {
  }

  lemma {:induction false} PlainIsItself()
    ensures TypeOfName(Ascii("text/plain")) == Some(Ascii("text/plain")) && TypeOfName(TARGETS) == None
  {
    NamesDiffer();
    assert |TEXT_PLAIN| == 10 && |UTF8_STRING| == 11 && |STRING| == 6 && |TEXT| == 4;
    assert |TARGETS| == 7 && |TIMESTAMP| == 9 && |MULTIPLE| == 8;
  }

  // ---- The whole paste ----------------------------------------------------

  /** What happens around the requestor: before its first request, while it waits for the answer, between that
      answer and its second request, and while it waits again. Steps of a wait that the answer leaves over happen
      after it. */
  datatype Schedule = Schedule(before: seq<EnvStep>, first: seq<EnvStep>, between: seq<EnvStep>, second: seq<EnvStep>)

  function PasteRun(p: Parties, w: World, s: Schedule, selection: Atom, prefer: Name, listOnly: bool): PasteEnd
    requires OwnerOk(p.o)
  {
    var w0 := EnvMoves(p, w, s.before);
    var (end, w1, left) := WaitRun(p, Convert(p, w0, selection, p.a.targets), s.first);
    if !end.Granted? then NoAnswer(end)
    else
      var raw := ReadValue(p.a, Stored(w1, p.me, p.a.wlSelection));
      if raw == [] || |raw| % 4 != 0 then BadTargets
      else
        var mimes := TypesOf(p.t, p.a, DecodeAtoms(raw));
        if listOnly then Ok(mimes, [], [])
        else
          var mime := ChooseMime(mimes, prefer);
          var target := TargetFor(p.t, p.a, mime);
          if mime == [] || target == NONE then NothingUsable
          else
            var w2 := EnvMoves(p, AfterRead(p.a, w1, p.me, p.a.wlSelection), left + s.between);
            var (end', w3, _) := WaitRun(p, Convert(p, w2, selection, target), s.second);
            if !end'.Granted? then NoData(mimes, end')
            else Ok(mimes, mime, ReadValue(p.a, Stored(w3, p.me, p.a.wlSelection)))
  }

  /** The answer to TARGETS that a paste gets to see. */
  function FirstAnswer(p: Parties, w: World, s: Schedule, selection: Atom): (WaitEnd, Option<Property>)
    requires OwnerOk(p.o)
  {
    var (end, w1, _) := WaitRun(p, Convert(p, EnvMoves(p, w, s.before), selection, p.a.targets), s.first);
    (end, Stored(w1, p.me, p.a.wlSelection))
  }

  /** A list of targets: something, in units of four bytes, and not the announcement of an incremental transfer. */
  predicate ListsAtoms(a: Atoms, stored: Option<Property>) {
    stored.Some? && stored.value.kind != a.incr && stored.value.value != [] && |stored.value.value| % 4 == 0
  }

  /** Which way a paste ends, read off that answer: it goes on exactly from a list of targets; then it gives up exactly
      if no type is on the list or the first of least rank has no name, and otherwise it asks for that type, for which
      there always is a target. */
  lemma {:induction false} PasteEndsBy(p: Parties, w: World, s: Schedule, selection: Atom, prefer: Name,
                                       listOnly: bool)
    requires OwnerOk(p.o) && TableOk(p.t) && Loaded(p.t, p.a)
    ensures var r := PasteRun(p, w, s, selection, prefer, listOnly);
            var (end, stored) := FirstAnswer(p, w, s, selection);
            && (r.NoAnswer? <==> !end.Granted?)
            && (r.BadTargets? <==> end.Granted? && !ListsAtoms(p.a, stored))
            && (end.Granted? && ListsAtoms(p.a, stored) ==>
                  |ReadValue(p.a, stored)| % 4 == 0
                  && var types := TypesOf(p.t, p.a, DecodeAtoms(ReadValue(p.a, stored)));
                     if listOnly then r == Ok(types, [], [])
                     else
                       && (r.NothingUsable? <==> types == [] || StableArgMin(types, prefer, []))
                       && (r.Ok? ==> r.available == types && StableArgMin(types, prefer, r.mime))
                       && (r.NoData? ==> r.available == types))
  {
    hide WaitRun, EnvMoves, AfterRead, TypesOf, DecodeAtoms, ChooseMime, TargetFor, Convert, TableOk, Loaded,
      StableArgMin, OwnerOk;
    var (end, stored) := FirstAnswer(p, w, s, selection);
    if end.Granted? {
      ReadIsList(p.a, stored);
      if ListsAtoms(p.a, stored) && !listOnly {
        var xs := DecodeAtoms(ReadValue(p.a, stored));
        var types := TypesOf(p.t, p.a, xs);
        ChosenHasTarget(p.t, p.a, xs, prefer);
      }
    }
  }

  lemma {:induction false} ReadIsList(a: Atoms, stored: Option<Property>)
    ensures var raw := ReadValue(a, stored); raw != [] && |raw| % 4 == 0 <==> ListsAtoms(a, stored)
  {
    hide ReadLength;
    if stored.Some? {
      ReadLengthAligned(|stored.value.value|);
    }
  }

  lemma {:induction false} ChosenHasTarget(t: AtomTable, a: Atoms, xs: seq<Atom>, prefer: Name)
    requires TableOk(t) && Loaded(t, a)
    ensures var types := TypesOf(t, a, xs);
            var mime := ChooseMime(types, prefer);
            && (mime == [] <==> types == [] || StableArgMin(types, prefer, []))
            && (mime != [] ==> StableArgMin(types, prefer, mime) && TargetFor(t, a, mime) != NONE)
  {
    hide TableOk, Loaded, TypesOf, ChooseMime, TargetFor, StableArgMin, Ascii;
    var types := TypesOf(t, a, xs);
    if types == [] {
      assert ChooseMime(types, prefer) == [] by { NothingChosen(prefer); }
    } else {
      var mime := ChooseMime(types, prefer);
      ChooseMimeIsStableArgMin(types, prefer, mime);
      ChooseMimeIsStableArgMin(types, prefer, []);
      if mime != [] {
        TargetIsListedIff(t, a, xs, mime);
        NoneIsNoType(t, a);
      }
    }
  }

  lemma {:induction false} NothingChosen(prefer: Name)
    ensures ChooseMime([], prefer) == []
  {
  }

  lemma {:induction false} NoneIsNoType(t: AtomTable, a: Atoms)
    ensures TypeOf(t, a, NONE) == None
  {
  }

  // ---- The requestor in place ---------------------------------------------

  class Requestor {
    const p: Parties
    var world: World

    constructor (p: Parties, world: World)
      ensures this.p == p && this.world == world
    {
      this.p, this.world := p, world;
    }

    /** Steps of the rest of the world. */
    method Elapse(steps: seq<EnvStep>)
      requires OwnerOk(p.o)
      modifies this
      ensures world == EnvMoves(p, old(world), steps)
    {
      hide EnvMove;
      for i := 0 to |steps|
        invariant EnvMoves(p, world, steps[i..]) == EnvMoves(p, old(world), steps)
      {
        assert steps[i..][1..] == steps[i + 1..];
        world := EnvMove(p, world, steps[i]);
      }
    }

    /** `steps` are what happens meanwhile; `left` those of them that the answer leaves over. */
    method RequestAndWait(selection: Atom, target: Atom, steps: seq<EnvStep>) returns (end: WaitEnd, left: seq<EnvStep>)
      requires OwnerOk(p.o)
      modifies this
      ensures (end, world, left) == WaitRun(p, Convert(p, old(world), selection, target), steps)
    {
      hide EnvMove;
      world := Convert(p, world, selection, target);
      left := steps;
      while true
        invariant WaitRun(p, world, left) == WaitRun(p, Convert(p, old(world), selection, target), steps)
        decreases |left|, |world.arrivals|
      {
        if world.arrivals != [] {
          var ev := world.arrivals[0];
          world := world.(arrivals := world.arrivals[1..]);
          match ev {
            case Noise => continue;
            case Notified(property) => return if property == NONE then Denied else Granted, left;
          }
        }
        if left == [] {
          return TimedOut, left;
        }
        world, left := EnvMove(p, world, left[0]), left[1..];
      }
    }

    /** GetProperty with delete: the reply, and the deletion when nothing remains beyond it. */
    method Get(property: Atom, offset: U32) returns (r: Option<Reply>)
      modifies this`world
      ensures var s := Stored(old(world), p.me, property);
              match s
              case None => r == Some(Reply(NONE, [], 0)) && world == old(world)
              case Some(v) => && r == GetProperty(v.kind, v.value, offset, READ_UNITS)
                              && world == if r.Some? && r.value.bytesAfter == 0
                                          then old(world).(props := old(world).props - {(p.me, property)})
                                              else old(world)
    {
      if (p.me, property) !in world.props {
        return Some(Reply(NONE, [], 0));
      }
      var v := world.props[(p.me, property)];
      r := GetProperty(v.kind, v.value, offset, READ_UNITS);
      if r.Some? && r.value.bytesAfter == 0 {
        world := world.(props := world.props - {(p.me, property)});
      }
    }

    /** Reads the property, 4 MiB at a time; it exists, unchanged, until the last request deletes it. */
    method ReadProperty() returns (data: seq<Byte>)
      modifies this`world
      ensures data == ReadValue(p.a, Stored(old(world), p.me, p.a.wlSelection))
      ensures world == AfterRead(p.a, old(world), p.me, p.a.wlSelection)
    {
      hide ReadLength;
      data := [];
      var offset: U32 := 0;
      var property := p.a.wlSelection;
      ghost var stored := Stored(world, p.me, property);
      while true
        invariant world == old(world)
        invariant data != [] ==> stored.Some? && stored.value.kind != p.a.incr
        invariant if stored.Some? then InStep(stored.value.value, More(data, offset)) else data == [] && offset == 0
        decreases (if stored.Some? then |stored.value.value| else 0) - |data|
      {
        var r := Get(property, offset);
        if r == None {
          assert false;
        } else {
          if r.value.kind == p.a.incr {
            return [];
          }
          if stored.Some? {
            PassKeepsStep(stored.value.value, data, offset);
          }
          data := data + r.value.value;
          offset := (offset + |r.value.value| / 4) % 0x1_0000_0000;
          if r.value.bytesAfter == 0 {
            return;
          }
        }
      }
    }

    method Paste(selection: Atom, prefer: Name, listOnly: bool, s: Schedule) returns (r: PasteEnd)
      requires OwnerOk(p.o)
      modifies this
      ensures r == PasteRun(p, old(world), s, selection, prefer, listOnly)
    {
      hide WaitRun, EnvMoves, ReadValue, AfterRead, TypesOf, DecodeAtoms, ChooseMime, TargetFor, Convert;
      Elapse(s.before);
      var end, left := RequestAndWait(selection, p.a.targets, s.first);
      if end != Granted {
        return NoAnswer(end);
      }
      var raw := ReadProperty();
      if raw == [] || |raw| % 4 != 0 {
        return BadTargets;
      }
      var mimes := Types(DecodeAtoms(raw));
      if listOnly {
        return Ok(mimes, [], []);
      }
      var mime := ChooseMime(mimes, prefer);
      if mime == [] {
        return NothingUsable;
      }
      var target := TargetFor(p.t, p.a, mime);
      if target == NONE {
        return NothingUsable;
      }
      Elapse(left + s.between);
      end, left := RequestAndWait(selection, target, s.second);
      if end != Granted {
        return NoData(mimes, end);
      }
      var bytes := ReadProperty();
      r := Ok(mimes, mime, bytes);
    }

    /** Translating the advertised atoms, in order. */
    method Types(xs: seq<Atom>) returns (mimes: seq<Name>)
      ensures mimes == TypesOf(p.t, p.a, xs)
    {
      hide TypeOf;
      mimes := [];
      for i := 0 to |xs|
        invariant mimes + TypesOf(p.t, p.a, xs[i..]) == TypesOf(p.t, p.a, xs)
      {
        assert xs[i..][1..] == xs[i + 1..];
        var n := TypeOf(p.t, p.a, xs[i]);
        if n.Some? {
          Assoc(mimes, [n.value], TypesOf(p.t, p.a, xs[i + 1..]));
          mimes := mimes + [n.value];
        }
      }
    }
  }
}
