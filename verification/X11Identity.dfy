/** X11 copy then paste is the identity on payloads, in every world. */
module X11Identity {
  import opened Bytes
  import opened Mime
  import opened X11Server
  import opened X11Owner
  import opened X11Serve
  import opened X11Paste

  // ---- One exchange -------------------------------------------------------

  /** The requests among these events that come from our window. */
  function Mine(queue: seq<OwnerEvent>, me: U32): seq<SelRequest> {
    if queue == [] then []
    else (if queue[0].RequestEvent? && queue[0].req.requestor == me then [queue[0].req] else []) + Mine(queue[1..], me)
  }

  function Notes(arrivals: seq<Arrival>): seq<Atom> {
    if arrivals == [] then []
    else (if arrivals[0].Notified? then [arrivals[0].property] else []) + Notes(arrivals[1..])
  }

  lemma {:induction false} MineConcat(a: seq<OwnerEvent>, b: seq<OwnerEvent>, me: U32)
    ensures Mine(a + b, me) == Mine(a, me) + Mine(b, me)
    decreases |a|
  {
    if a == [] {
      assert a + b == b;
    } else {
      assert (a + b)[1..] == a[1..] + b;
      MineConcat(a[1..], b, me);
      Assoc(if a[0].RequestEvent? && a[0].req.requestor == me then [a[0].req] else [], Mine(a[1..], me), Mine(b, me));
    }
  }

  lemma {:induction false} MineOne(ev: OwnerEvent, me: U32)
    ensures Mine([ev], me) == if ev.RequestEvent? && ev.req.requestor == me then [ev.req] else []
  {
    assert [ev][1..] == [];
  }

  lemma {:induction false} NotesSnoc(arrivals: seq<Arrival>, x: Arrival)
    ensures Notes(arrivals + [x]) == Notes(arrivals) + (if x.Notified? then [x.property] else [])
    decreases |arrivals|
  {
    if arrivals == [] {
      assert arrivals + [x] == [x] && [x][1..] == [];
    } else {
      assert (arrivals + [x])[1..] == arrivals[1..] + [x];
      NotesSnoc(arrivals[1..], x);
      Assoc(if arrivals[0].Notified? then [arrivals[0].property] else [], Notes(arrivals[1..]),
            if x.Notified? then [x.property] else []);
    }
  }

  /** No request of ours is on its way and no notification waits for us. */
  ghost predicate Idle(p: Parties, w: World) {
    Mine(w.owner.queue, p.me) == [] && Notes(w.arrivals) == []
  }

  /** Our request is on its way to the owner, behind the events `ahead`. */
  ghost predicate Waiting(p: Parties, w: World, ahead: seq<OwnerEvent>, req: SelRequest, behind: seq<OwnerEvent>) {
    && w.owner.queue == ahead + [RequestEvent(req)] + behind
    && Mine(ahead, p.me) == [] && Mine(behind, p.me) == [] && Notes(w.arrivals) == []
  }

  ghost predicate IsOurs(p: Parties, req: SelRequest) {
    req.requestor == p.me && req.property == p.a.wlSelection && p.a.wlSelection != NONE
  }

  /** An answer is at most two requests to the server. */
  lemma {:induction false} ApplyShort(w: World, me: U32, ops: seq<XOp>)
    requires 1 <= |ops| <= 2
    ensures ApplyOps(w, me, ops)
         == if |ops| == 1 then ApplyOp(w, me, ops[0]) else ApplyOp(ApplyOp(w, me, ops[0]), me, ops[1])
  {
    var rest := ops[1..];
    var w1 := ApplyOp(w, me, ops[0]);
    assert ApplyOps(w, me, ops) == ApplyOps(w1, me, rest);
    if |ops| == 2 {
      assert rest[0] == ops[1] && rest[1..] == [];
      assert ApplyOps(w1, me, rest) == ApplyOps(ApplyOp(w1, me, ops[1]), me, rest[1..]);
    }
  }

  /** The owner's answer to our request. */
  lemma {:induction false} OwnAnswer(p: Parties, w: World, req: SelRequest)
    requires OwnerOk(p.o) && IsOurs(p, req)
    ensures var c := ContentFor(p.o, req);
            var r := ApplyOps(w, p.me, Answer(p.o, req));
            && r.owner == w.owner
            && r.arrivals == w.arrivals + [Notified(if c.None? then NONE else p.a.wlSelection)]
            && (c.Some? ==> Stored(r, p.me, p.a.wlSelection) == c)
  {
    hide ContentFor, ApplyOps;
    var ops := Answer(p.o, req);
    ApplyShort(w, p.me, ops);
  }

  /** Its answer to anybody else leaves our arrivals and our property alone. */
  lemma {:induction false} ForeignAnswer(p: Parties, w: World, req: SelRequest)
    requires OwnerOk(p.o) && req.requestor != p.me
    ensures var r := ApplyOps(w, p.me, Answer(p.o, req));
            && r.owner == w.owner && r.arrivals == w.arrivals
            && Stored(r, p.me, p.a.wlSelection) == Stored(w, p.me, p.a.wlSelection)
  {
    hide ContentFor, ApplyOps;
    var ops := Answer(p.o, req);
    ApplyShort(w, p.me, ops);
  }

  // ---- The owner's side of a schedule -------------------------------------

  function OwnerMoves(p: Parties, v: OwnerSide, steps: seq<EnvStep>): OwnerSide
    requires OwnerOk(p.o)
    decreases |steps|
  {
    if steps == [] then v else OwnerMoves(p, OwnerMove(p, v, steps[0]), steps[1..])
  }

  function Turns(steps: seq<EnvStep>): nat {
    if steps == [] then 0 else (if steps[0].OwnerTurn? then 1 else 0) + Turns(steps[1..])
  }

  /** None of these events ends the owner's loop. */
  predicate Harmless(p: Parties, events: seq<OwnerEvent>)
    requires OwnerOk(p.o)
  {
    forall ev | ev in events :: !EndsLoop(p, ev)
  }

  /** The owner will come to what is queued behind `ahead` within these steps. */
  predicate Reaches(p: Parties, v: OwnerSide, ahead: seq<OwnerEvent>, steps: seq<EnvStep>)
    requires OwnerOk(p.o)
  {
    v.alive && Harmless(p, ahead) && Turns(steps) > |ahead|
  }

  /** A request converted now is answered within these steps: the selection is the owner's, nothing queued before the
      request ends the owner's loop, and the owner gets a turn for each of those events and one for the request. */
  predicate Heard(p: Parties, v: OwnerSide, steps: seq<EnvStep>)
    requires OwnerOk(p.o)
  {
    v.owns && Reaches(p, v, v.queue, steps)
  }

  lemma {:induction false} MovesConcat(p: Parties, v: OwnerSide, a: seq<EnvStep>, b: seq<EnvStep>)
    requires OwnerOk(p.o)
    ensures OwnerMoves(p, v, a + b) == OwnerMoves(p, OwnerMoves(p, v, a), b)
    decreases |a|
  {
    hide OwnerMove;
    if a == [] {
      assert a + b == b;
    } else {
      assert (a + b)[1..] == a[1..] + b;
      MovesConcat(p, OwnerMove(p, v, a[0]), a[1..], b);
    }
  }

  /** A step moves the owner as its own side says. */
  lemma {:induction false} MoveMovesOwner(p: Parties, w: World, s: EnvStep)
    requires OwnerOk(p.o)
    ensures EnvMove(p, w, s).owner == OwnerMove(p, w.owner, s)
  {
    hide OwnerMove, Answer;
    if s.OwnerTurn? {
      OpsLeaveOwner(w.(owner := OwnerMove(p, w.owner, s)), p.me, TurnOps(p, w.owner));
    } else if s.NoiseArrives? {
      assert OwnerMove(p, w.owner, s) == w.owner by { NoiseLeavesOwner(p, w.owner); }
    }
  }

  lemma {:induction false} NoiseLeavesOwner(p: Parties, v: OwnerSide)
    requires OwnerOk(p.o)
    ensures OwnerMove(p, v, NoiseArrives) == v
  {
  }

  lemma {:induction false} OpsLeaveOwner(w: World, me: U32, ops: seq<XOp>)
    ensures ApplyOps(w, me, ops).owner == w.owner
    decreases |ops|
  {
    if ops != [] { OpsLeaveOwner(ApplyOp(w, me, ops[0]), me, ops[1..]); }
  }

  /** While nothing of ours is under way, steps of the others leave it so, and our property as it is. */
  lemma {:induction false} MoveKeepsIdle(p: Parties, w: World, s: EnvStep)
    requires OwnerOk(p.o) && Idle(p, w)
    ensures var r := EnvMove(p, w, s);
            Idle(p, r) && Stored(r, p.me, p.a.wlSelection) == Stored(w, p.me, p.a.wlSelection)
  {
    hide ServesData, Answer, ApplyOps, Mine, Notes;
    var queue := w.owner.queue;
    match s
    case NoiseArrives => NotesSnoc(w.arrivals, Noise);
    case ForeignRequest(other) => MineConcat(queue, [RequestEvent(other)], p.me); MineOne(RequestEvent(other), p.me);
    case SelectionLost => MineConcat(queue, [ClearEvent], p.me); MineOne(ClearEvent, p.me);
    case OwnerTurn =>
      if w.owner.alive && queue != [] {
        assert queue == [queue[0]] + queue[1..];
        MineConcat([queue[0]], queue[1..], p.me);
        MineOne(queue[0], p.me);
        if queue[0].RequestEvent? {
          ForeignAnswer(p, w.(owner := OwnerMove(p, w.owner, s)), queue[0].req);
        } else {
          NoOps(w.(owner := OwnerMove(p, w.owner, s)), p.me);
        }
      } else {
        NoOps(w, p.me);
      }
  }

  lemma {:induction false} NoOps(w: World, me: U32)
    ensures ApplyOps(w, me, []) == w
  {
  }

  lemma {:induction false} MovesKeepIdle(p: Parties, w: World, steps: seq<EnvStep>)
    requires OwnerOk(p.o) && Idle(p, w)
    ensures var r := EnvMoves(p, w, steps);
            && Idle(p, r) && r.owner == OwnerMoves(p, w.owner, steps)
            && Stored(r, p.me, p.a.wlSelection) == Stored(w, p.me, p.a.wlSelection)
    decreases |steps|
  {
    hide EnvMove, OwnerMove, Idle;
    if steps != [] {
      MoveKeepsIdle(p, w, steps[0]);
      MoveMovesOwner(p, w, steps[0]);
      MovesKeepIdle(p, EnvMove(p, w, steps[0]), steps[1..]);
    }
  }

  // ---- The wait -----------------------------------------------------------

  /** What a wait for the answer to req ended with. */
  ghost predicate WaitAnswered(p: Parties, w: World, steps: seq<EnvStep>, req: SelRequest, end: WaitEnd, r: World,
                               left: seq<EnvStep>)
    requires OwnerOk(p.o)
  {
    var c := ContentFor(p.o, req);
    && end == (if c.None? then Denied else Granted) && Idle(p, r)
    && (c.Some? ==> Stored(r, p.me, p.a.wlSelection) == c)
    && |left| <= |steps| && left == steps[|steps| - |left|..]
    && r.owner == OwnerMoves(p, w.owner, steps[..|steps| - |left|])
  }

  /** A step that does not answer our request brings it closer, or not, as the owner's side says. */
  lemma {:induction false} StepKeepsWaiting(p: Parties, w: World, s: EnvStep, steps: seq<EnvStep>,
                                            ahead: seq<OwnerEvent>, req: SelRequest, behind: seq<OwnerEvent>)
    returns (ahead': seq<OwnerEvent>, behind': seq<OwnerEvent>)
    requires OwnerOk(p.o) && Waiting(p, w, ahead, req, behind) && IsOurs(p, req)
    requires !(s.OwnerTurn? && w.owner.alive && ahead == [])
    ensures Waiting(p, EnvMove(p, w, s), ahead', req, behind')
    ensures Reaches(p, w.owner, ahead, [s] + steps) <==> Reaches(p, OwnerMove(p, w.owner, s), ahead', steps)
  {
    hide ServesData, Answer, ApplyOps, ContentFor;
    ahead', behind' := ahead, behind;
    assert ([s] + steps)[1..] == steps;
    match s
    case NoiseArrives => NotesSnoc(w.arrivals, Noise);
    case ForeignRequest(other) =>
      if w.owner.owns && other.requestor != p.me {
        behind' := behind + [RequestEvent(other)];
        MineConcat(behind, [RequestEvent(other)], p.me);
        MineOne(RequestEvent(other), p.me);
        Assoc(ahead + [RequestEvent(req)], behind, [RequestEvent(other)]);
      }
    case SelectionLost =>
      if w.owner.owns {
        behind' := behind + [ClearEvent];
        MineConcat(behind, [ClearEvent], p.me);
        MineOne(ClearEvent, p.me);
        Assoc(ahead + [RequestEvent(req)], behind, [ClearEvent]);
      }
    case OwnerTurn =>
      if w.owner.alive {
        ahead' := ahead[1..];
        TurnKeepsWaiting(p, w, ahead, req, behind);
        assert ahead == [ahead[0]] + ahead[1..];
        assert forall ev | ev in ahead :: ev == ahead[0] || ev in ahead[1..];
      } else {
        NoOps(w, p.me);
      }
  }

  lemma {:induction false} TurnKeepsWaiting(p: Parties, w: World, ahead: seq<OwnerEvent>, req: SelRequest,
                                            behind: seq<OwnerEvent>)
    requires OwnerOk(p.o) && Waiting(p, w, ahead, req, behind) && w.owner.alive && ahead != []
    ensures Waiting(p, EnvMove(p, w, OwnerTurn), ahead[1..], req, behind)
    ensures OwnerMove(p, w.owner, OwnerTurn).alive == !EndsLoop(p, ahead[0])
  {
    hide ServesData, Answer, ApplyOps, ContentFor;
    var queue := w.owner.queue;
    assert queue[0] == ahead[0] && queue[1..] == ahead[1..] + [RequestEvent(req)] + behind;
    assert ahead == [ahead[0]] + ahead[1..];
    MineConcat([ahead[0]], ahead[1..], p.me);
    MineOne(ahead[0], p.me);
    var w' := w.(owner := OwnerMove(p, w.owner, OwnerTurn));
    if queue[0].RequestEvent? {
      ForeignAnswer(p, w', queue[0].req);
    } else {
      NoOps(w', p.me);
    }
  }

  /** The owner's turn at our request. */
  lemma {:induction false} TurnAnswers(p: Parties, w: World, steps: seq<EnvStep>, req: SelRequest,
                                       behind: seq<OwnerEvent>)
    requires OwnerOk(p.o) && Waiting(p, w, [], req, behind) && IsOurs(p, req) && w.owner.alive && w.arrivals == []
    ensures var (end, r, left) := WaitRun(p, EnvMove(p, w, OwnerTurn), steps);
            left == steps && WaitAnswered(p, w, [OwnerTurn] + steps, req, end, r, left)
  {
    hide ServesData, ApplyOps, ContentFor, Answer, Mine;
    var v := w.owner;
    assert v.queue[0] == RequestEvent(req) && v.queue[1..] == behind;
    OwnAnswer(p, w.(owner := OwnerMove(p, v, OwnerTurn)), req);
    var w' := EnvMove(p, w, OwnerTurn);
    assert w'.arrivals == [w'.arrivals[0]] && w'.arrivals[1..] == [];
    var all := [OwnerTurn] + steps;
    assert all[1..] == steps && all[..1] == [OwnerTurn] && [OwnerTurn][1..] == [];
    assert OwnerMoves(p, v, [OwnerTurn]) == OwnerMoves(p, OwnerMove(p, v, OwnerTurn), []);
  }

  /** The wait, exactly: it is answered if the owner reaches our request within the steps, by the owner's verdict and
      with the owner's content in our property, whatever others do meanwhile; otherwise it times out. */
  lemma {:induction false} WaitDelivers(p: Parties, w: World, steps: seq<EnvStep>, ahead: seq<OwnerEvent>,
                                        req: SelRequest, behind: seq<OwnerEvent>)
    requires OwnerOk(p.o) && IsOurs(p, req) && Waiting(p, w, ahead, req, behind)
    ensures var (end, r, left) := WaitRun(p, w, steps);
            if Reaches(p, w.owner, ahead, steps) then WaitAnswered(p, w, steps, req, end, r, left) else end.TimedOut?
    decreases |steps|, |w.arrivals|
  {
    hide ContentFor, EnvMove, Mine, OwnerMove, Idle, Harmless, WaitAnswered;
    if w.arrivals != [] {
      NoiseFirst(w.arrivals);
      var w' := w.(arrivals := w.arrivals[1..]);
      WaitDelivers(p, w', steps, ahead, req, behind);
      if Reaches(p, w.owner, ahead, steps) {
        var (end, r, left) := WaitRun(p, w', steps);
        SameAnswered(p, w', w, steps, req, end, r, left);
      }
    } else if steps != [] {
      var s, rest := steps[0], steps[1..];
      assert steps == [s] + rest;
      if s.OwnerTurn? && w.owner.alive && ahead == [] {
        TurnAnswers(p, w, rest, req, behind);
        NothingAhead(p, w.owner, rest);
      } else {
        var ahead', behind' := StepKeepsWaiting(p, w, s, rest, ahead, req, behind);
        MoveMovesOwner(p, w, s);
        var w' := EnvMove(p, w, s);
        WaitDelivers(p, w', rest, ahead', req, behind');
        if Reaches(p, w.owner, ahead, steps) {
          var (end, r, left) := WaitRun(p, w', rest);
          AnsweredLater(p, w, s, rest, req, end, r, left);
        }
      }
    }
  }

  lemma {:induction false} NoiseFirst(arrivals: seq<Arrival>)
    requires arrivals != [] && Notes(arrivals) == []
    ensures arrivals[0].Noise? && Notes(arrivals[1..]) == []
  {
  }

  lemma {:induction false} NothingAhead(p: Parties, v: OwnerSide, rest: seq<EnvStep>)
    requires OwnerOk(p.o) && v.alive
    ensures Reaches(p, v, [], [OwnerTurn] + rest)
  {
  }

  lemma {:induction false} SameAnswered(p: Parties, w: World, w': World, steps: seq<EnvStep>, req: SelRequest,
                                        end: WaitEnd, r: World, left: seq<EnvStep>)
    requires OwnerOk(p.o) && WaitAnswered(p, w, steps, req, end, r, left) && w'.owner == w.owner
    ensures WaitAnswered(p, w', steps, req, end, r, left)
  {
    hide ContentFor, Idle;
  }

  lemma {:induction false} AnsweredLater(p: Parties, w: World, s: EnvStep, rest: seq<EnvStep>, req: SelRequest,
                                         end: WaitEnd, r: World, left: seq<EnvStep>)
    requires OwnerOk(p.o) && WaitAnswered(p, EnvMove(p, w, s), rest, req, end, r, left)
    ensures WaitAnswered(p, w, [s] + rest, req, end, r, left)
  {
    hide ContentFor, Idle, EnvMove, OwnerMove;
    MoveMovesOwner(p, w, s);
    var all, k := [s] + rest, |rest| - |left|;
    assert all[k + 1..] == rest[k..];
    assert all[..k + 1] == [s] + rest[..k] && ([s] + rest[..k])[1..] == rest[..k];
  }

  /** How a request converted now ends if it is not answered: refused at once without an owner, otherwise in the
      timeout. */
  function Unheard(v: OwnerSide): WaitEnd {
    if v.owns then TimedOut else Denied
  }

  /** The owner with our request queued. */
  function Asked(p: Parties, v: OwnerSide, target: Atom): OwnerSide {
    v.(queue := v.queue + [RequestEvent(OurRequest(p, p.o.selection, target))])
  }

  /** Whatever comes after them, the steps a take one owner where the steps b take the other. */
  ghost predicate SameOwner(p: Parties, v: OwnerSide, a: seq<EnvStep>, v': OwnerSide, b: seq<EnvStep>)
    requires OwnerOk(p.o)
  {
    forall more :: OwnerMoves(p, v, a + more) == OwnerMoves(p, v', b + more)
  }

  /** One request of the paste, from an idle world. */
  lemma {:induction false} RequestDelivers(p: Parties, w: World, steps: seq<EnvStep>, target: Atom)
    requires OwnerOk(p.o) && Idle(p, w) && p.a.wlSelection != NONE
    ensures var req := OurRequest(p, p.o.selection, target);
            var c := ContentFor(p.o, req);
            var (end, r, left) := WaitRun(p, Convert(p, w, p.o.selection, target), steps);
            if Heard(p, w.owner, steps) then
              && end == (if c.None? then Denied else Granted) && Idle(p, r)
              && (c.Some? ==> Stored(r, p.me, p.a.wlSelection) == c)
              && SameOwner(p, r.owner, left, Asked(p, w.owner, target), steps)
            else end == Unheard(w.owner)
  {
    hide ContentFor, EnvMove, Mine, OwnerMove, Harmless;
    var req := OurRequest(p, p.o.selection, target);
    var w' := Convert(p, w, p.o.selection, target);
    if w.owner.owns {
      var queue := w.owner.queue;
      assert queue + [RequestEvent(req)] + [] == queue + [RequestEvent(req)];
      assert Mine([], p.me) == [] by { MineNothing(p.me); }
      WaitDelivers(p, w', steps, queue, req, []);
      var (end, r, left) := WaitRun(p, w', steps);
      if Heard(p, w.owner, steps) {
        var k := |steps| - |left|;
        forall more ensures OwnerMoves(p, r.owner, left + more) == OwnerMoves(p, w'.owner, steps + more) {
          assert steps + more == steps[..k] + (left + more);
          MovesConcat(p, w'.owner, steps[..k], left + more);
        }
      }
    } else {
      RefusedAtOnce(p, w, steps);
    }
  }

  lemma {:induction false} MineNothing(me: U32)
    ensures Mine([], me) == []
  {
  }

  /** The server's own refusal comes behind nothing but noise. */
  lemma {:induction false} RefusedAtOnce(p: Parties, w: World, steps: seq<EnvStep>)
    requires OwnerOk(p.o) && Notes(w.arrivals) == []
    ensures WaitRun(p, w.(arrivals := w.arrivals + [Notified(NONE)]), steps).0 == Denied
    decreases |w.arrivals|
  {
    if w.arrivals != [] {
      var w' := w.(arrivals := w.arrivals[1..]);
      assert (w.arrivals + [Notified(NONE)])[1..] == w.arrivals[1..] + [Notified(NONE)];
      RefusedAtOnce(p, w', steps);
    }
  }

  // ---- The advertised list, seen from the other side ----------------------

  lemma {:induction false} AtomsRoundTrip(atoms: seq<Atom>)
    ensures DecodeAtoms(EncodeAtoms(atoms)) == atoms
    decreases |atoms|
  {
    hide Le32, FromLe32;
    if atoms != [] {
      var tail := EncodeAtoms(atoms[1..]);
      assert (Le32(atoms[0]) + tail)[..4] == Le32(atoms[0]) && (Le32(atoms[0]) + tail)[4..] == tail;
      Le32RoundTrip(atoms[0]);
      AtomsRoundTrip(atoms[1..]);
      assert [atoms[0]] + atoms[1..] == atoms;
    }
  }

  function TypesOfNames(names: seq<Name>): seq<Name> {
    if names == [] then []
    else (if TypeOfName(names[0]).Some? then [TypeOfName(names[0]).value] else []) + TypesOfNames(names[1..])
  }

  lemma {:induction false} TypesOfIsByName(t: AtomTable, a: Atoms, ts: Targets)
    requires TableOk(t) && Loaded(t, a) && Parallel(t, ts)
    ensures TypesOf(t, a, ts.atoms) == TypesOfNames(ts.names)
    decreases |ts.atoms|
  {
    hide TableOk, Loaded, TypeOf, TypeOfName, Named;
    if ts.atoms != [] {
      var rest := Targets(ts.atoms[1..], ts.names[1..]);
      forall i | 0 <= i < |rest.atoms| ensures Named(t, rest.names[i], rest.atoms[i]) {
        assert Named(t, ts.names[i + 1], ts.atoms[i + 1]);
      }
      assert Named(t, ts.names[0], ts.atoms[0]);
      TypeOfIsByName(t, a, ts.names[0], ts.atoms[0]);
      TypesOfIsByName(t, a, rest);
    }
  }

  /** Names that stand for types of their own. */
  function WithoutMeta(names: seq<Name>): seq<Name> {
    if names == [] then []
    else
      (if names[0] == TARGETS || names[0] == TIMESTAMP || names[0] == MULTIPLE then [] else [names[0]])
      + WithoutMeta(names[1..])
  }

  /** What a paste lists for an owner of these types: the non-text ones, each once, in order, and for text its one
      canonical type. */
  function UsableTypes(mimes: seq<Name>): seq<Name> {
    WithoutMeta(Dedup(NonText(mimes))) + (if HasText(mimes) then [TEXT_PLAIN_UTF8] else [])
  }

  lemma {:induction false} TypesSnoc(names: seq<Name>, n: Name)
    ensures TypesOfNames(names + [n])
            == TypesOfNames(names) + (if TypeOfName(n).Some? then [TypeOfName(n).value] else [])
    decreases |names|
  {
    hide TypeOfName;
    if names == [] {
      assert names + [n] == [n] && [n][1..] == [];
    } else {
      assert (names + [n])[1..] == names[1..] + [n];
      TypesSnoc(names[1..], n);
      Assoc(if TypeOfName(names[0]).Some? then [TypeOfName(names[0]).value] else [], TypesOfNames(names[1..]),
            if TypeOfName(n).Some? then [TypeOfName(n).value] else []);
    }
  }

  lemma {:induction false} WithoutMetaSnoc(names: seq<Name>, n: Name)
    ensures WithoutMeta(names + [n])
         == WithoutMeta(names) + (if n == TARGETS || n == TIMESTAMP || n == MULTIPLE then [] else [n])
    decreases |names|
  {
    hide TARGETS, TIMESTAMP, MULTIPLE;
    if names == [] {
      assert names + [n] == [n] && [n][1..] == [];
    } else {
      assert (names + [n])[1..] == names[1..] + [n];
      WithoutMetaSnoc(names[1..], n);
      Assoc(if names[0] == TARGETS || names[0] == TIMESTAMP || names[0] == MULTIPLE then [] else [names[0]],
            WithoutMeta(names[1..]), if n == TARGETS || n == TIMESTAMP || n == MULTIPLE then [] else [n]);
    }
  }

  lemma {:induction false} TypesOfNonText(names: seq<Name>)
    requires forall n | n in names :: !IsTextual(n)
    ensures TypesOfNames(Dedup([TARGETS] + names)) == WithoutMeta(Dedup(names))
    decreases |names|
  {
    hide Dedup, TypesOfNames, WithoutMeta, IsTextual, TypeOfName;
    if names == [] {
      OnlyTargets();
      assert [TARGETS] + names == [TARGETS];
    } else {
      var init, last := names[..|names| - 1], names[|names| - 1];
      assert names == init + [last];
      assert [TARGETS] + names == [TARGETS] + init + [last];
      assert last in names && forall n | n in init :: n in names;
      TypesOfNonText(init);
      SnocDedup(init, last);
      SnocDedup([TARGETS] + init, last);
      assert last in [TARGETS] + init <==> last == TARGETS || last in init;
      TypesSnoc(Dedup([TARGETS] + init), last);
      WithoutMetaSnoc(Dedup(init), last);
      NonTextType(last);
      assert WithoutMeta(Dedup(init)) + [] == WithoutMeta(Dedup(init));
      assert TypesOfNames(Dedup([TARGETS] + init)) + [] == TypesOfNames(Dedup([TARGETS] + init));
    }
  }

  lemma {:induction false} OnlyTargets()
    ensures TypesOfNames(Dedup([TARGETS])) == [] && WithoutMeta(Dedup([])) == []
  {
    NamesDiffer();
    SnocDedup([], TARGETS);
    assert [] + [TARGETS] == [TARGETS];
    assert Dedup([TARGETS]) == [TARGETS];
    assert [TARGETS][1..] == [];
  }

  lemma {:induction false} NonTextType(n: Name)
    requires !IsTextual(n)
    ensures TypeOfName(n) == if n == TARGETS || n == TIMESTAMP || n == MULTIPLE then None else Some(n)
  {
    KnownTexts();
  }

  /** Owner's list and requestor's reading of it are inverse. */
  lemma {:induction false} TypesOfCandidates(mimes: seq<Name>)
    ensures TypesOfNames(Dedup(Candidates(mimes))) == UsableTypes(mimes)
  {
    hide Dedup, TypesOfNames, WithoutMeta, IsTextual, NonText, HasText;
    NonTextMembers(mimes);
    TypesOfNonText(NonText(mimes));
    var head := [TARGETS] + NonText(mimes);
    assert head + [] == head;
    assert WithoutMeta(Dedup(NonText(mimes))) + [] == WithoutMeta(Dedup(NonText(mimes)));
    if HasText(mimes) {
      KnownTexts();
      NamesDiffer();
      assert UTF8_STRING !in head;
      SnocDedup(head, UTF8_STRING);
      TypesSnoc(Dedup(head), UTF8_STRING);
      assert Candidates(mimes) == head + [UTF8_STRING];
    }
  }

  lemma {:induction false} WithoutMetaMembers(names: seq<Name>)
    ensures forall n :: n in WithoutMeta(names) <==> n in names && n != TARGETS && n != TIMESTAMP && n != MULTIPLE
    decreases |names|
  {
    hide TARGETS, TIMESTAMP, MULTIPLE;
    if names != [] {
      WithoutMetaMembers(names[1..]);
      assert names == [names[0]] + names[1..];
    }
  }

  // ---- The theorem --------------------------------------------------------

  /** The owner is what acquire_selection makes of these types and bytes, and both sides know the atoms. */
  ghost predicate Acquired(p: Parties, mimes: seq<Name>) {
    && TableOk(p.t) && Loaded(p.t, p.a) && p.o.a == p.a && p.o.mimes == mimes
    && Parallel(p.t, p.o.targets) && p.o.targets.names == Dedup(Candidates(mimes))
    && (forall m | m in mimes :: m != [] && Carried(m) == m)
    && |p.o.targets.atoms| < 0x1_0000_0000 && ReadLength(4 * |p.o.targets.atoms|) == 4 * |p.o.targets.atoms|
    && |p.o.bytes| < 0x1_0000_0000
  }

  /** What a paste of this owner's selection yields. */
  function Expected(mimes: seq<Name>, bytes: seq<Byte>, prefer: Name, listOnly: bool): PasteEnd {
    var usable := UsableTypes(mimes);
    if listOnly then Ok(usable, [], [])
    else if usable == [] then NothingUsable
    else
      var mime := ChooseMime(usable, prefer);
      Ok(usable, mime, if mime == INCR then [] else bytes)
  }

  lemma {:induction false} TargetsAnswer(p: Parties, mimes: seq<Name>)
    requires Acquired(p, mimes)
    ensures OwnerOk(p.o)
    ensures var c := ContentFor(p.o, OurRequest(p, p.o.selection, p.a.targets));
            c.Some? && var raw := ReadValue(p.a, c);
            raw != [] && |raw| % 4 == 0 && TypesOf(p.t, p.a, DecodeAtoms(raw)) == UsableTypes(mimes)
  {
    hide TypesOf, DecodeAtoms, UsableTypes, TableOk, Dedup, NonText, HasText, EncodeAtoms, ReadLength;
    var atoms := p.o.targets.atoms;
    assert atoms[..|atoms| % 0x1_0000_0000] == atoms;
    var sent := EncodeAtoms(atoms);
    assert sent[..ReadLength(|sent|)] == sent;
    NamesDiffer();
    assert Named(p.t, ATOM, XA_ATOM) by { AtomNamed(p.t); }
    SameNameIffSameAtom(p.t, ATOM, XA_ATOM, INCR, p.a.incr);
    AtomsRoundTrip(atoms);
    TypesOfIsByName(p.t, p.a, p.o.targets);
    TypesOfCandidates(mimes);
    assert TARGETS in Candidates(mimes);
    assert |p.o.targets.names| > 0 by { assert TARGETS in p.o.targets.names; }
  }

  lemma {:induction false} AtomNamed(t: AtomTable)
    requires TableOk(t)
    ensures Named(t, ATOM, XA_ATOM)
  {
  }

  /** Each listed type leads back to a target the owner serves. */
  lemma {:induction false} DataAnswer(p: Parties, mimes: seq<Name>, mime: Name)
    requires Acquired(p, mimes) && mime in UsableTypes(mimes)
    ensures OwnerOk(p.o) && mime != []
    ensures var target := TargetFor(p.t, p.a, mime);
            target != NONE
            && var c := ContentFor(p.o, OurRequest(p, p.o.selection, target));
               c.Some? && ReadValue(p.a, c) == if mime == INCR then [] else p.o.bytes
  {
    hide TableOk, Dedup, NonText, HasText, IsTextual, WithoutMeta, MatchTarget;
    KnownTexts();
    NamesDiffer();
    NonTextMembers(mimes);
    WithoutMetaMembers(Dedup(NonText(mimes)));
    assert p.o.bytes[..|p.o.bytes| % 0x1_0000_0000] == p.o.bytes;
    if mime == TEXT_PLAIN_UTF8 {
      TextServed(p, mimes);
    } else {
      OtherServed(p, mimes, mime);
    }
  }

  lemma {:induction false} TextServed(p: Parties, mimes: seq<Name>)
    requires Acquired(p, mimes) && TEXT_PLAIN_UTF8 in UsableTypes(mimes)
    ensures MatchTarget(p.o.targets, mimes, p.a.utf8String, p.a) != []
    ensures p.a.utf8String != p.a.targets && p.a.utf8String != p.a.timestamp && p.a.utf8String != p.a.incr &&
            p.a.utf8String != NONE
  {
    hide TableOk, Dedup, NonText, HasText, IsTextual, WithoutMeta;
    KnownTexts();
    NamesDiffer();
    NonTextMembers(mimes);
    WithoutMetaMembers(Dedup(NonText(mimes)));
    FirstTextualIff(mimes);
    SameNameIffSameAtom(p.t, UTF8_STRING, p.a.utf8String, TARGETS, p.a.targets);
    SameNameIffSameAtom(p.t, UTF8_STRING, p.a.utf8String, TIMESTAMP, p.a.timestamp);
    SameNameIffSameAtom(p.t, UTF8_STRING, p.a.utf8String, INCR, p.a.incr);
  }

  lemma {:induction false} OtherServed(p: Parties, mimes: seq<Name>, mime: Name)
    requires Acquired(p, mimes) && mime in UsableTypes(mimes) && mime != TEXT_PLAIN_UTF8
    ensures mime != [] && mime != TEXT_PLAIN && mime != TEXT
    ensures var x := Lookup(p.t, Carried(mime));
            && x != NONE && x != p.a.targets && x != p.a.timestamp
            && MatchTarget(p.o.targets, mimes, x, p.a) == mime
            && (x == p.a.incr <==> mime == INCR)
  {
    hide TableOk, Dedup, NonText, HasText, IsTextual, WithoutMeta, ListedName, FirstTextual;
    KnownTexts();
    NamesDiffer();
    NonTextMembers(mimes);
    WithoutMetaMembers(Dedup(NonText(mimes)));
    assert mime in mimes && !IsTextual(mime);
    assert mime in Candidates(mimes);
    assert mime in p.o.targets.names;
    var i :| 0 <= i < |p.o.targets.names| && p.o.targets.names[i] == mime;
    var x := p.o.targets.atoms[i];
    assert Named(p.t, mime, x);
    StringNamed(p.t, p.a);
    SameNameIffSameAtom(p.t, mime, x, TARGETS, p.a.targets);
    SameNameIffSameAtom(p.t, mime, x, TIMESTAMP, p.a.timestamp);
    SameNameIffSameAtom(p.t, mime, x, INCR, p.a.incr);
    SameNameIffSameAtom(p.t, mime, x, UTF8_STRING, p.a.utf8String);
    SameNameIffSameAtom(p.t, mime, x, STRING, p.a.stringAtom);
    SameNameIffSameAtom(p.t, mime, x, TEXT, p.a.text);
    ListedNameIs(p.t, p.o.targets, x);
  }

  lemma {:induction false} AtomsKnown(t: AtomTable, a: Atoms)
    requires TableOk(t) && Loaded(t, a)
    ensures a.wlSelection != NONE && a.incr != NONE
  {
  }

  lemma {:induction false} ReadKeepsIdle(p: Parties, w: World)
    requires Idle(p, w)
    ensures var r := AfterRead(p.a, w, p.me, p.a.wlSelection); Idle(p, r) && r.owner == w.owner
  {
    hide GetProperty;
  }

  /** The owner's side when the requestor's first request reaches the server, and when the second one does. */
  function AtFirst(p: Parties, v: OwnerSide, s: Schedule): OwnerSide
    requires OwnerOk(p.o)
  {
    OwnerMoves(p, v, s.before)
  }

  function AtSecond(p: Parties, v: OwnerSide, s: Schedule): OwnerSide
    requires OwnerOk(p.o)
  {
    OwnerMoves(p, Asked(p, AtFirst(p, v, s), p.a.targets), s.first + s.between)
  }

  /** Copy then paste. For every list of nonempty types, every payload, every preference, and every interleaving of the
      owner, other clients and other events: if the owner hears both requests (one, if only a list is wanted or there
      is nothing to ask for), the paste lists exactly the owner's usable types and returns the preferred one of them
      with exactly the owner's bytes; if it does not hear one, the paste fails there, at once when the selection is
      nobody's and otherwise in the timeout. The one exception is a type named INCR, which the requestor takes for the
      announcement of an incremental transfer. */
  lemma {:induction false} CopyThenPaste(p: Parties, w: World, s: Schedule, mimes: seq<Name>, prefer: Name,
                                         listOnly: bool)
    requires Acquired(p, mimes) && Idle(p, w)
    ensures OwnerOk(p.o)
    ensures var v1, v2 := AtFirst(p, w.owner, s), AtSecond(p, w.owner, s);
            var usable := UsableTypes(mimes);
            PasteRun(p, w, s, p.o.selection, prefer, listOnly)
            == if !Heard(p, v1, s.first) then NoAnswer(Unheard(v1))
               else if listOnly || usable == [] || Heard(p, v2, s.second) then
                 Expected(mimes, p.o.bytes, prefer, listOnly)
               else NoData(usable, Unheard(v2))
  {
    hide TableOk, ContentFor, WaitRun, EnvMoves, OwnerMoves, Convert, TypesOf, DecodeAtoms, UsableTypes, TargetFor,
      ChooseMime, ReadValue, AfterRead, Idle, Dedup, Heard, Asked, ReadLength;
    TargetsAnswer(p, mimes);
    AtomsKnown(p.t, p.a);
    MovesKeepIdle(p, w, s.before);
    var w0 := EnvMoves(p, w, s.before);
    RequestDelivers(p, w0, s.first, p.a.targets);
    var (end, w1, left) := WaitRun(p, Convert(p, w0, p.o.selection, p.a.targets), s.first);
    if Heard(p, w0.owner, s.first) {
      if !listOnly && UsableTypes(mimes) != [] {
        ChooseMimeIsStableArgMin(UsableTypes(mimes), prefer, []);
        SecondRequest(p, w0, w1, s, left, mimes, ChooseMime(UsableTypes(mimes), prefer));
      } else if UsableTypes(mimes) == [] {
        NothingToChoose(prefer);
      }
    }
  }

  /** The second request, from what the first left behind. */
  lemma {:induction false} SecondRequest(p: Parties, w0: World, w1: World, s: Schedule, left: seq<EnvStep>,
                                         mimes: seq<Name>, mime: Name)
    requires Acquired(p, mimes) && mime in UsableTypes(mimes)
    requires OwnerOk(p.o) && Idle(p, w1)
    requires SameOwner(p, w1.owner, left, Asked(p, w0.owner, p.a.targets), s.first)
    ensures var target := TargetFor(p.t, p.a, mime);
            var w2 := EnvMoves(p, AfterRead(p.a, w1, p.me, p.a.wlSelection), left + s.between);
            var v2 := OwnerMoves(p, Asked(p, w0.owner, p.a.targets), s.first + s.between);
            var (end, w3, _) := WaitRun(p, Convert(p, w2, p.o.selection, target), s.second);
            && mime != [] && target != NONE
            && if Heard(p, v2, s.second) then
                 && end == Granted
                 && ReadValue(p.a, Stored(w3, p.me, p.a.wlSelection)) == (if mime == INCR then [] else p.o.bytes)
               else end == Unheard(v2)
  {
    hide TableOk, ContentFor, WaitRun, EnvMoves, OwnerMoves, Convert, UsableTypes, TargetFor, ReadValue, AfterRead,
      Idle, Dedup, Heard, Asked, ReadLength;
    AtomsKnown(p.t, p.a);
    DataAnswer(p, mimes, mime);
    ReadKeepsIdle(p, w1);
    MovesKeepIdle(p, AfterRead(p.a, w1, p.me, p.a.wlSelection), left + s.between);
    RequestDelivers(p, EnvMoves(p, AfterRead(p.a, w1, p.me, p.a.wlSelection), left + s.between), s.second,
                    TargetFor(p.t, p.a, mime));
  }

  lemma {:induction false} NothingToChoose(prefer: Name)
    ensures ChooseMime([], prefer) == []
  {
  }

  // ---- When both requests are heard ---------------------------------------

  /** The requests other clients make among these steps. */
  function Foreign(steps: seq<EnvStep>): nat {
    if steps == [] then 0 else (if steps[0].ForeignRequest? then 1 else 0) + Foreign(steps[1..])
  }

  /** Nobody takes the selection, and in oneshot mode nobody else asks for the data. */
  predicate Peaceful(p: Parties, steps: seq<EnvStep>)
    requires OwnerOk(p.o)
  {
    forall s | s in steps :: !s.SelectionLost? && (s.ForeignRequest? ==> !EndsLoop(p, RequestEvent(s.req)))
  }

  /** The selection is the owner's and nothing queued ends its loop. */
  predicate Serving(p: Parties, v: OwnerSide)
    requires OwnerOk(p.o)
  {
    v.owns && v.alive && Harmless(p, v.queue)
  }

  /** In peace the owner goes on serving, and its queue shrinks with its turns. */
  lemma {:induction false} PeaceKeepsServing(p: Parties, v: OwnerSide, steps: seq<EnvStep>)
    requires OwnerOk(p.o) && Serving(p, v) && Peaceful(p, steps)
    ensures var r := OwnerMoves(p, v, steps);
            && Serving(p, r)
            && |r.queue| <= (if |v.queue| > Turns(steps) then |v.queue| - Turns(steps) else 0) + Foreign(steps)
    decreases |steps|
  {
    hide EndsLoop;
    if steps != [] {
      assert steps[0] in steps && forall s | s in steps[1..] :: s in steps;
      var v' := OwnerMove(p, v, steps[0]);
      assert forall ev | ev in v.queue[if v.queue == [] then 0 else 1..] :: ev in v.queue;
      PeaceKeepsServing(p, v', steps[1..]);
    }
  }

  lemma {:induction false} CountsConcat(a: seq<EnvStep>, b: seq<EnvStep>)
    ensures Turns(a + b) == Turns(a) + Turns(b) && Foreign(a + b) == Foreign(a) + Foreign(b)
    decreases |a|
  {
    if a == [] {
      assert a + b == b;
    } else {
      assert (a + b)[1..] == a[1..] + b;
      CountsConcat(a[1..], b);
    }
  }

  /** An owner that keeps its selection and serves: turns for everything queued and for our request during the first
      wait, and for what others ask from then on and for our request during the second, are enough, whatever else
      happens. In oneshot mode this needs that nobody else asks for the data before us. */
  lemma {:induction false} PeacefulPasteCompletes(p: Parties, w: World, s: Schedule, mimes: seq<Name>, prefer: Name,
                                                  listOnly: bool)
    requires Acquired(p, mimes) && Idle(p, w) && OwnerOk(p.o)
    requires Serving(p, w.owner) && Peaceful(p, s.before + s.first + s.between)
    requires Turns(s.first) > |w.owner.queue| + Foreign(s.before)
    requires Turns(s.second) > Foreign(s.first + s.between)
    ensures PasteRun(p, w, s, p.o.selection, prefer, listOnly) == Expected(mimes, p.o.bytes, prefer, listOnly)
  {
    hide OwnerMoves, PasteRun, Expected, UsableTypes, TableOk, Dedup, ReadLength, Parallel, Loaded, EndsLoop,
      ServesData, Idle;
    CopyThenPaste(p, w, s, mimes, prefer, listOnly);
    var all := s.before + s.first + s.between;
    assert forall x | x in s.before || x in s.first + s.between :: x in all;
    PeaceKeepsServing(p, w.owner, s.before);
    var v1 := AtFirst(p, w.owner, s);
    TargetsAreNoData(p);
    var asked := Asked(p, v1, p.a.targets);
    assert Serving(p, asked);
    PeaceKeepsServing(p, asked, s.first + s.between);
    CountsConcat(s.first, s.between);
  }

  lemma {:induction false} TargetsAreNoData(p: Parties)
    requires OwnerOk(p.o) && p.o.a == p.a
    ensures !EndsLoop(p, RequestEvent(OurRequest(p, p.o.selection, p.a.targets)))
  {
    hide MatchTarget;
  }
}
