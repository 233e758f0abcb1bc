/** A client program is a list of phases: queue some requests, then dispatch until a goal holds. */
module Phases {
  import opened Bytes
  import opened Wire
  import opened Connections
  import opened Dispatching
  import opened Transport
  import opened Clients

  /** Entering a phase: the program gives up, or changes its state and queues requests,
      flushing at once if it is eager. */
  datatype Entry<S> =
    | Refused(st: S)
    | Entered(objects: Table, nextId: U32, st: S, reqs: seq<Request>, fds: seq<int>, eager: bool)

  datatype Phase<!S> = Phase(enter: (Table, U32, S) -> Entry<S>, done: S -> bool)

  /** Lost: the connection failed or ended before the goal. */
  datatype Status = Completed | Rejected | Lost

  function EnterMachine<S>(m: Machine<S>, e: Entry<S>): Machine<S> {
    match e
    case Refused(st) => m.(st := st)
    case Entered(objects, nextId, st, reqs, fds, eager) =>
      var queued := Posted(m.(objects := objects, nextId := nextId, st := st), reqs, fds);
      if eager then FlushMachine(queued).1 else queued
  }

  function RunPhase<S>(h: Handler<S>, p: Phase<S>, m: Machine<S>): (Status, Machine<S>) {
    var e := p.enter(m.objects, m.nextId, m.st);
    var entered := EnterMachine(m, e);
    if e.Refused? then (Rejected, entered)
    else
      var (ok, r) := Run(h, p.done, entered);
      (if ok then Completed else Lost, r)
  }

  function RunPhases<S>(h: Handler<S>, program: seq<Phase<S>>, m: Machine<S>): (Status, Machine<S>) {
    if program == [] then (Completed, m)
    else
      var (status, r) := RunPhase(h, program[0], m);
      if status.Completed? then RunPhases(h, program[1..], r) else (status, r)
  }

  // ---- The one-shot reading of a whole program ----------------------------

  /** Lost here means: the packets ran out before the goal. */
  datatype Story<S> = Story(status: Status, objects: Table, nextId: U32, st: S, rest: seq<Packet>, log: seq<LogItem>)

  function FoldPhase<S>(h: Handler<S>, p: Phase<S>, objects: Table, nextId: U32, st: S, ps: seq<Packet>): Story<S> {
    match p.enter(objects, nextId, st)
    case Refused(st) => Story(Rejected, objects, nextId, st, ps, [])
    case Entered(objects, nextId, st, reqs, fds, eager) =>
      var f := FoldUntil(h, p.done, objects, st, ps);
      Story(if f.stopped then Completed else Lost, f.objects, nextId, f.st, f.rest, QueuedItems(reqs) + f.log)
  }

  function FoldPhases<S>(h: Handler<S>, program: seq<Phase<S>>, objects: Table, nextId: U32, st: S,
                         ps: seq<Packet>): Story<S> {
    if program == [] then Story(Completed, objects, nextId, st, ps, [])
    else
      var s := FoldPhase(h, program[0], objects, nextId, st, ps);
      if s.status.Completed? then
        var t := FoldPhases(h, program[1..], s.objects, s.nextId, s.st, s.rest);
        t.(log := s.log + t.log)
      else s
  }

  /** Throughout the program the peer attaches descriptors exactly where they are asked for. */
  ghost predicate MatchedPhases<S>(h: Handler<S>, program: seq<Phase<S>>, objects: Table, nextId: U32, st: S,
                                   ps: seq<Packet>) {
    program == [] ||
    match program[0].enter(objects, nextId, st)
    case Refused(_) => true
    case Entered(objects', nextId', st', _, _, _) =>
      && Matched(h, program[0].done, objects', st', ps)
      && var s := FoldPhase(h, program[0], objects, nextId, st, ps);
         s.status.Completed? ==> MatchedPhases(h, program[1..], s.objects, s.nextId, s.st, s.rest)
  }

  /** The run's status and new log against the one-shot reading: a run that was not cut off tells the whole
      story, and one that was cut off tells the beginning of it. */
  ghost predicate Tells<S>(m: Machine<S>, status: Status, r: Machine<S>, s: Story<S>) {
    && m.log <= r.log
    && (if status.Lost? then r.log[|m.log|..] <= s.log
        else s == Story(status, r.objects, r.nextId, r.st, s.rest, r.log[|m.log|..]))
  }

  lemma {:induction false} RunKeepsNextId<S>(h: Handler<S>, done: S -> bool, m: Machine<S>)
    ensures Run(h, done, m).1.nextId == m.nextId
    decreases |m.recvs|, |m.q.inBuf|
  {
    hide PeekMessageSize, FlushRun;
    var (sent, flushed) := FlushMachine(m);
    if !done(m.st) && sent {
      if PeekMessageSize(m.q.inBuf) != 0 {
        RunKeepsNextId(h, done, Drain(h, done, flushed));
      } else if Block(flushed).0 {
        RunKeepsNextId(h, done, Block(flushed).1);
      }
    }
  }

  lemma {:induction false} PhaseTransports<S>(h: Handler<S>, p: Phase<S>, m: Machine<S>, ps: seq<Packet>)
    requires Faithful(ps, m.q, m.recvs)
    requires MatchedPhases(h, [p], m.objects, m.nextId, m.st, ps)
    ensures var (status, r) := RunPhase(h, p, m);
            var s := FoldPhase(h, p, m.objects, m.nextId, m.st, ps);
            && Tells(m, status, r, s)
            && (status.Completed? ==> Faithful(s.rest, r.q, r.recvs))
  {
    hide Faithful, Matched, Run, FoldUntil, Carried, EncodeRequests, FlushRun;
    var e := p.enter(m.objects, m.nextId, m.st);
    if e.Entered? {
      var entered := EnterMachine(m, e);
      SameInput(ps, m.q, entered.q, m.recvs);
      var rest := RunTransports(h, p.done, entered, ps);
      RunKeepsNextId(h, p.done, entered);
      var (ok, r) := Run(h, p.done, entered);
      CarriedLog(h, p.done, entered, r, ps, rest);
      assert entered.log == m.log + QueuedItems(e.reqs);
      assert r.log[|m.log|..] == QueuedItems(e.reqs) + r.log[|entered.log|..];
    } else {
      assert m.log[|m.log|..] == [];
    }
  }

  lemma {:induction false} CarriedLog<S>(h: Handler<S>, done: S -> bool, m: Machine<S>, r: Machine<S>, ps: seq<Packet>,
                                         rest: seq<Packet>)
    requires Carried(h, done, m, r, ps, rest)
    ensures m.log <= r.log && r.log[|m.log|..] <= FoldUntil(h, done, m.objects, m.st, ps).log
  {
    hide FoldUntil, Matched;
  }

  /** Whole programs: every run over a faithful stream tells the story that the packets alone determine,
      however many phases stopped early and left input behind for the next. */
  lemma {:induction false} PhasesTransport<S>(h: Handler<S>, program: seq<Phase<S>>, m: Machine<S>, ps: seq<Packet>)
    requires Faithful(ps, m.q, m.recvs)
    requires MatchedPhases(h, program, m.objects, m.nextId, m.st, ps)
    ensures var (status, r) := RunPhases(h, program, m);
            Tells(m, status, r, FoldPhases(h, program, m.objects, m.nextId, m.st, ps))
    decreases |program|
  {
    hide Faithful, Matched, RunPhase, FoldPhase;
    if program == [] {
      assert m.log[|m.log|..] == [];
    } else {
      var p := program[0];
      MatchedFirst(h, program, m.objects, m.nextId, m.st, ps);
      PhaseTransports(h, p, m, ps);
      var (status, r) := RunPhase(h, p, m);
      var s := FoldPhase(h, p, m.objects, m.nextId, m.st, ps);
      if status.Completed? {
        PhasesTransport(h, program[1..], r, s.rest);
        var (status', r') := RunPhases(h, program[1..], r);
        assert r'.log[|m.log|..] == r.log[|m.log|..] + r'.log[|r.log|..];
      } else if status.Lost? && s.status.Completed? {
        var t := FoldPhases(h, program[1..], s.objects, s.nextId, s.st, s.rest);
        assert s.log <= s.log + t.log;
      }
    }
  }

  lemma {:induction false} MatchedFirst<S>(h: Handler<S>, program: seq<Phase<S>>, objects: Table, nextId: U32, st: S,
                                           ps: seq<Packet>)
    requires program != [] && MatchedPhases(h, program, objects, nextId, st, ps)
    ensures MatchedPhases(h, [program[0]], objects, nextId, st, ps)
    ensures var s := FoldPhase(h, program[0], objects, nextId, st, ps);
            s.status.Completed? ==> MatchedPhases(h, program[1..], s.objects, s.nextId, s.st, s.rest)
  {
    hide Matched, FoldUntil;
    var s := FoldPhase(h, program[0], objects, nextId, st, ps);
    assert MatchedPhases(h, [program[0]][1..], s.objects, s.nextId, s.st, s.rest);
  }

  /** What a program sent and still has queued decodes to the requests in its log. */
  lemma {:induction false} PhasesAccount<S>(h: Handler<S>, program: seq<Phase<S>>, m: Machine<S>)
    requires Accounted(m)
    ensures Accounted(RunPhases(h, program, m).1)
    decreases |program|
  {
    hide Accounted, Run;
    if program != [] {
      PhaseAccounts(h, program[0], m);
      PhasesAccount(h, program[1..], RunPhase(h, program[0], m).1);
    }
  }

  lemma {:induction false} PhaseAccounts<S>(h: Handler<S>, p: Phase<S>, m: Machine<S>)
    requires Accounted(m)
    ensures Accounted(RunPhase(h, p, m).1)
  {
    hide Run, EncodeRequests, FlushRun;
    var e := p.enter(m.objects, m.nextId, m.st);
    if e.Entered? {
      var queued := Posted(m.(objects := e.objects, nextId := e.nextId, st := e.st), e.reqs, e.fds);
      assert m.log + [] == m.log;
      QueueAccounts(m, [], e.reqs, queued);
      FlushAccounts(queued);
      RunAccounts(h, p.done, EnterMachine(m, e));
    }
  }

  lemma {:induction false} PhasesConcat<S>(h: Handler<S>, a: seq<Phase<S>>, b: seq<Phase<S>>, m: Machine<S>)
    ensures var (status, r) := RunPhases(h, a, m);
            RunPhases(h, a + b, m) == if status.Completed? then RunPhases(h, b, r) else (status, r)
    decreases |a|
  {
    hide RunPhase;
    if a == [] {
      assert a + b == b;
    } else {
      assert (a + b)[1..] == a[1..] + b;
      PhasesConcat(h, a[1..], b, RunPhase(h, a[0], m).1);
    }
  }

  lemma {:induction false} TwoPhases<S>(h: Handler<S>, a: Phase<S>, b: Phase<S>, m: Machine<S>)
    ensures var (status, r) := RunPhase(h, a, m);
            RunPhases(h, [a, b], m) == if status.Completed? then RunPhase(h, b, r) else (status, r)
  {
    hide RunPhase;
    var (status, r) := RunPhase(h, a, m);
    assert [a, b][1..] == [b] && [b][1..] == [];
    var (status', r') := RunPhase(h, b, r);
    assert RunPhases(h, [], r') == (Completed, r');
  }

  lemma {:induction false} OnePhase<S>(h: Handler<S>, a: Phase<S>, m: Machine<S>)
    ensures RunPhases(h, [a], m) == RunPhase(h, a, m)
  {
    hide RunPhase;
    var (status, r) := RunPhase(h, a, m);
    assert [a][1..] == [];
    assert RunPhases(h, [], r) == (Completed, r);
  }

  lemma {:induction false} StoriesConcat<S>(h: Handler<S>, a: seq<Phase<S>>, b: seq<Phase<S>>, objects: Table,
                                            nextId: U32, st: S, ps: seq<Packet>)
    ensures var s := FoldPhases(h, a, objects, nextId, st, ps);
            FoldPhases(h, a + b, objects, nextId, st, ps)
            == if s.status.Completed? then
                 var t := FoldPhases(h, b, s.objects, s.nextId, s.st, s.rest);
                 t.(log := s.log + t.log)
               else s
    decreases |a|
  {
    hide FoldPhase;
    if a == [] {
      assert a + b == b;
      var t := FoldPhases(h, b, objects, nextId, st, ps);
      assert [] + t.log == t.log;
    } else {
      assert (a + b)[1..] == a[1..] + b;
      var s1 := FoldPhase(h, a[0], objects, nextId, st, ps);
      if s1.status.Completed? {
        StoriesConcat(h, a[1..], b, s1.objects, s1.nextId, s1.st, s1.rest);
        var s2 := FoldPhases(h, a[1..], s1.objects, s1.nextId, s1.st, s1.rest);
        var t := FoldPhases(h, b, s2.objects, s2.nextId, s2.st, s2.rest);
        Assoc(s1.log, s2.log, t.log);
      }
    }
  }

  lemma {:induction false} OneStory<S>(h: Handler<S>, a: Phase<S>, objects: Table, nextId: U32, st: S, ps: seq<Packet>)
    ensures FoldPhases(h, [a], objects, nextId, st, ps) == FoldPhase(h, a, objects, nextId, st, ps)
  {
    hide FoldPhase;
    var s := FoldPhase(h, a, objects, nextId, st, ps);
    assert [a][1..] == [];
    assert s.log + [] == s.log;
    assert FoldPhases(h, [], s.objects, s.nextId, s.st, s.rest)
           == Story(Completed, s.objects, s.nextId, s.st, s.rest, []);
  }

  lemma {:induction false} TwoStories<S>(h: Handler<S>, a: Phase<S>, b: Phase<S>, objects: Table, nextId: U32, st: S,
                                         ps: seq<Packet>)
    ensures var s := FoldPhase(h, a, objects, nextId, st, ps);
            FoldPhases(h, [a, b], objects, nextId, st, ps)
            == if s.status.Completed? then
                 var t := FoldPhase(h, b, s.objects, s.nextId, s.st, s.rest);
                 t.(log := s.log + t.log)
               else s
  {
    hide FoldPhase;
    var s := FoldPhase(h, a, objects, nextId, st, ps);
    assert [a] + [b] == [a, b];
    StoriesConcat(h, [a], [b], objects, nextId, st, ps);
    OneStory(h, a, objects, nextId, st, ps);
    OneStory(h, b, s.objects, s.nextId, s.st, s.rest);
  }
}
