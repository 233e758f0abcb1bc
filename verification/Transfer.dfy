/** Moving a payload through a pipe: serve_send on one end (src/clipboard/transfer.cpp), drain_fd on the
    other (src/core/fd.cpp), and the bounded pipe between two processes that interleave freely. */
module Transfer {
  import opened Bytes

  const READ_CHUNK: nat := 0x1_0000

  // ---- The writing side ---------------------------------------------------

  /** What one write call reports. WouldBlock also carries the verdict of the poll that follows it:
      false for a timeout or a poll that was itself interrupted. */
  datatype WriteAnswer = Wrote(n: nat) | WroteNothing | WriteInterrupted | WouldBlock(ready: bool) | WriteFailed

  datatype WriterStatus = Writing | Finished | TimedOut | Broken

  /** The writer still has `rest` to write. Its descriptor is open exactly while it is Writing. */
  datatype Producer = Producer(rest: seq<Byte>, status: WriterStatus)

  /** One turn of the loop. A positive count is cut to what was offered. */
  function ProducerStep(p: Producer, a: WriteAnswer): Producer {
    if !p.status.Writing? then p
    else if p.rest == [] then p.(status := Finished)
    else match a
      case Wrote(n) => p.(rest := p.rest[Taken(n, |p.rest|)..])
      case WriteInterrupted => p
      case WouldBlock(ready) => if ready then p else p.(status := TimedOut)
      case WriteFailed => p.(status := Broken)
      case WroteNothing => p.(status := Broken)
  }

  /** The loop run to its end; running out of answers counts as a failed write. */
  function ServeRun(p: Producer, answers: seq<WriteAnswer>): Producer
    decreases |answers|
  {
    if !p.status.Writing? then p
    else if p.rest == [] then p.(status := Finished)
    else if answers == [] then p.(status := Broken)
    else ServeRun(ProducerStep(p, answers[0]), answers[1..])
  }

  // ---- The loop, read off the kernel's answers ----------------------------

  /** The loop only tries again after such an answer: an interrupted write, or a full pipe that became writable. */
  predicate Retry(a: WriteAnswer) {
    a == WriteInterrupted || a == WouldBlock(true)
  }

  function WithoutRetries(answers: seq<WriteAnswer>): seq<WriteAnswer> {
    if answers == [] then []
    else (if Retry(answers[0]) then [] else [answers[0]]) + WithoutRetries(answers[1..])
  }

  /** What the writes before the first failure move, as far as there is something to move. */
  function Moved(answers: seq<WriteAnswer>): nat {
    if answers == [] then 0
    else match answers[0]
      case Wrote(n) => (if n == 0 then 1 else n) + Moved(answers[1..])
      case WriteInterrupted => Moved(answers[1..])
      case WouldBlock(true) => Moved(answers[1..])
      case _ => 0
  }

  /** The first answer that is neither a successful write nor a retry. */
  function FirstFailure(answers: seq<WriteAnswer>): Option<WriteAnswer> {
    if answers == [] then None
    else if answers[0].Wrote? || Retry(answers[0]) then FirstFailure(answers[1..])
    else Some(answers[0])
  }

  /** Retries change nothing. */
  lemma {:induction false} RetriesChangeNothing(p: Producer, answers: seq<WriteAnswer>)
    ensures ServeRun(p, answers) == ServeRun(p, WithoutRetries(answers))
    decreases |answers|
  {
    if answers != [] {
      var rest := WithoutRetries(answers[1..]);
      assert ([answers[0]] + rest)[1..] == rest && [] + rest == rest;
      RetriesChangeNothing(p, answers[1..]);
      RetriesChangeNothing(ProducerStep(p, answers[0]), answers[1..]);
    }
  }

  /** How a transfer ends: everything is written exactly if the writes before the first failure cover it; otherwise what
      they cover is gone, and the loop timed out exactly if that failure is a full pipe that stayed full. */
  lemma {:induction false} ServeRunIs(data: seq<Byte>, answers: seq<WriteAnswer>)
    ensures var r := ServeRun(Producer(data, Writing), answers);
            && r.rest == data[Min(|data|, Moved(answers))..]
            && (r.status.Finished? <==> Moved(answers) >= |data|)
            && (r.status.TimedOut? <==> Moved(answers) < |data| && FirstFailure(answers) == Some(WouldBlock(false)))
            && !r.status.Writing?
    decreases |answers|
  {
    if data != [] && answers != [] {
      match answers[0]
      case Wrote(n) =>
        var k := Taken(n, |data|);
        ServeRunIs(data[k..], answers[1..]);
        if Moved(answers) < |data| {
          assert data[k..][Moved(answers[1..])..] == data[Moved(answers)..];
        }
      case WriteInterrupted => ServeRunIs(data, answers[1..]);
      case WouldBlock(ready) => if ready { ServeRunIs(data, answers[1..]); }
      case _ =>
    }
  }

  /** serve_send without its descriptor: what is left unwritten, and why the loop ended. */
  method ServeSend(data: seq<Byte>, answers: seq<WriteAnswer>) returns (p: nat, status: WriterStatus)
    ensures p == Min(|data|, Moved(answers))
    ensures Producer(data[p..], status) == ServeRun(Producer(data, Writing), answers)
    ensures status.Finished? <==> p == |data|
    ensures status.TimedOut? <==> p < |data| && FirstFailure(answers) == Some(WouldBlock(false))
    ensures !status.Writing?
  {
    ServeRunIs(data, answers);
    p := 0;
    var len := |data|;
    var next := 0;
    while len > 0
      invariant 0 <= p <= |data| && p + len == |data|
      invariant next <= |answers|
      invariant ServeRun(Producer(data[p..], Writing), answers[next..]) == ServeRun(Producer(data, Writing), answers)
      decreases |answers| - next
    {
      if next == |answers| {
        return p, Broken;
      }
      var a := answers[next];
      assert answers[next..][1..] == answers[next + 1..];
      next := next + 1;
      match a {
        case Wrote(n) =>
          var k := Taken(n, len);
          assert data[p..][k..] == data[p + k..];
          p := p + k;
          len := len - k;
        case WriteInterrupted =>
        case WouldBlock(ready) =>
          if !ready {
            return p, TimedOut;
          }
        case WriteFailed =>
          return p, Broken;
        case WroteNothing =>
          return p, Broken;
      }
    }
    status := Finished;
  }

  // ---- The reading side ---------------------------------------------------

  type ReadBytes = b: seq<Byte> | 1 <= |b| <= READ_CHUNK witness [0]

  datatype ReadAnswer = ReadSome(bytes: ReadBytes) | ReadEof | ReadInterrupted | ReadFailed

  /** The bytes gathered up to the first end of file or error. */
  function DrainRun(readings: seq<ReadAnswer>): seq<Byte> {
    if readings == [] then []
    else match readings[0]
      case ReadSome(b) => b + DrainRun(readings[1..])
      case ReadInterrupted => DrainRun(readings[1..])
      case _ => []
  }

  /** drain_fd: grow the buffer by a chunk, read into its end, cut it back. */
  method DrainFd(readings: seq<ReadAnswer>) returns (buf: seq<Byte>)
    ensures buf == DrainRun(readings)
  {
    buf := [];
    var next := 0;
    while next < |readings|
      invariant next <= |readings|
      invariant buf + DrainRun(readings[next..]) == DrainRun(readings)
    {
      var size := |buf|;
      buf := buf + Zeros(READ_CHUNK);
      var a := readings[next];
      assert readings[next..][1..] == readings[next + 1..];
      next := next + 1;
      match a {
        case ReadSome(b) =>
          ghost var was := buf[..size];
          buf := buf[..size] + b + buf[size + |b|..];
          buf := buf[..size + |b|];
          Assoc(was, b, DrainRun(readings[next..]));
        case ReadInterrupted =>
          buf := buf[..size];
        case _ =>
          buf := buf[..size];
          return;
      }
    }
  }

  // ---- The pipe between them ----------------------------------------------

  datatype ReaderStatus = Reading | AtEof | ReadError

  /** Both ends, the bytes in the pipe, and the answers each side has seen. `held` says that some process besides
      the writer, the reader's own for example, keeps a write end of the pipe open. */
  datatype World = World(
    producer: Producer, pipe: seq<Byte>, drained: seq<Byte>, reader: ReaderStatus,
    writes: seq<WriteAnswer>, readings: seq<ReadAnswer>, held: bool)

  /** One scheduling choice: the writer's turn with the kernel's inclination, or the reader's. */
  datatype Turn = WriterTurn(a: WriteAnswer) | ReaderTurn(n: nat) | ReaderInterrupted | ReaderFails

  function Start(payload: seq<Byte>, held: bool): World {
    World(Producer(payload, Writing), [], [], Reading, [], [], held)
  }

  /** What the kernel really answers: a write moves at most the free space, and blocks when there is none. */
  function Answer(w: World, capacity: nat, a: WriteAnswer): WriteAnswer {
    if a.Wrote? && w.producer.rest != [] then
      if |w.pipe| >= capacity then WouldBlock(true)
      else Wrote(Taken(a.n, Min(|w.producer.rest|, capacity - |w.pipe|)))
    else a
  }

  function Take(w: World, capacity: nat, t: Turn): World
    requires capacity > 0
  {
    match t
    case WriterTurn(wish) =>
      if !w.producer.status.Writing? then w
      else
        var a := Answer(w, capacity, wish);
        var p := ProducerStep(w.producer, a);
        var moved := |w.producer.rest| - |p.rest|;
        w.(producer := p, pipe := w.pipe + w.producer.rest[..moved], writes := w.writes + [a])
    case ReaderInterrupted =>
      if w.reader.Reading? then w.(readings := w.readings + [ReadInterrupted]) else w
    case ReaderFails =>
      if w.reader.Reading? then w.(reader := ReadError, readings := w.readings + [ReadFailed]) else w
    case ReaderTurn(n) =>
      if !w.reader.Reading? then w
      else if w.pipe != [] then
        var k := Taken(n, Min(|w.pipe|, READ_CHUNK));
        w.(drained := w.drained + w.pipe[..k], pipe := w.pipe[k..], readings := w.readings + [ReadSome(w.pipe[..k])])
      else if w.producer.status.Writing? || w.held then w  // the read blocks
      else w.(reader := AtEof, readings := w.readings + [ReadEof])
  }

  function TakeAll(w: World, capacity: nat, turns: seq<Turn>): World
    requires capacity > 0
    decreases |turns|
  {
    if turns == [] then w else TakeAll(Take(w, capacity, turns[0]), capacity, turns[1..])
  }

  /** Nothing is lost, duplicated or reordered, the pipe never overflows, the writer reports success only
      with nothing left and failure only with something left, and end of file is seen only on an empty
      pipe that nobody can write to any more. */
  ghost predicate Sound(payload: seq<Byte>, capacity: nat, w: World) {
    && w.drained + w.pipe + w.producer.rest == payload
    && |w.pipe| <= capacity
    && (w.producer.status.Finished? ==> w.producer.rest == [])
    && (w.producer.status.TimedOut? || w.producer.status.Broken? ==> w.producer.rest != [])
    && (w.reader.AtEof? ==> w.pipe == [] && !w.producer.status.Writing? && !w.held)
  }

  lemma {:induction false} TurnKeepsSound(payload: seq<Byte>, capacity: nat, w: World, t: Turn)
    requires capacity > 0 && Sound(payload, capacity, w)
    ensures Sound(payload, capacity, Take(w, capacity, t))
  {
    hide ProducerStep;
    var r := Take(w, capacity, t);
    match t
    case WriterTurn(wish) =>
      if w.producer.status.Writing? {
        ProducerStepMoves(w.producer, Answer(w, capacity, wish));
        var moved := w.producer.rest[..|w.producer.rest| - |r.producer.rest|];
        assert w.producer.rest == moved + r.producer.rest;
        Assoc(w.drained, w.pipe, moved);
        Assoc(w.drained + w.pipe, moved, r.producer.rest);
      }
    case ReaderTurn(_) =>
      if w.reader.Reading? && w.pipe != [] {
        var k := |w.pipe| - |r.pipe|;
        PrefixAndRest(w.pipe, k);
        Assoc(w.drained, w.pipe[..k], w.pipe[k..]);
      }
    case _ =>
  }

  /** A turn of the writer drops from the front of what it has left exactly what its write took. */
  lemma {:induction false} ProducerStepMoves(p: Producer, a: WriteAnswer)
    requires p.status.Writing?
    ensures var q := ProducerStep(p, a);
            && |q.rest| <= |p.rest| && q.rest == p.rest[|p.rest| - |q.rest|..]
            && (a.Wrote? && a.n >= 1 ==> |p.rest| - |q.rest| <= a.n)
            && (!a.Wrote? || p.rest == [] ==> q.rest == p.rest)
            && (q.status.Finished? ==> q.rest == [])
            && (q.status.TimedOut? || q.status.Broken? ==> q.rest != [])
  {
  }

  lemma {:induction false} RunKeepsSound(payload: seq<Byte>, capacity: nat, w: World, turns: seq<Turn>)
    requires capacity > 0 && Sound(payload, capacity, w)
    ensures Sound(payload, capacity, TakeAll(w, capacity, turns))
    decreases |turns|
  {
    hide Sound, Take;
    if turns != [] {
      TurnKeepsSound(payload, capacity, w, turns[0]);
      RunKeepsSound(payload, capacity, Take(w, capacity, turns[0]), turns[1..]);
    }
  }

  /** For every capacity and every interleaving: drained plus in-pipe bytes are a prefix of the payload,
      and a reader at end of file holds the whole payload exactly when the writer finished. */
  lemma {:induction false} PipeDelivers(payload: seq<Byte>, capacity: nat, held: bool, turns: seq<Turn>)
    requires capacity > 0
    ensures var w := TakeAll(Start(payload, held), capacity, turns);
            && w.drained + w.pipe <= payload
            && (w.reader.AtEof? ==> (w.drained == payload <==> w.producer.status.Finished?))
  {
    hide TakeAll;
    var w := TakeAll(Start(payload, held), capacity, turns);
    assert [] + [] + payload == payload;
    RunKeepsSound(payload, capacity, Start(payload, held), turns);
    if w.reader.AtEof? {
      assert |w.drained| + |w.producer.rest| == |payload|;
      if w.producer.status.Finished? {
        assert w.drained == w.drained + [] + [];
      }
    }
  }

  /** While anybody else holds a write end, the reader never sees the end of the file, even after the writer has
      finished: no reading is one, so drain_fd can return only on a read error. */
  lemma {:induction false} HeldPipeNeverEnds(payload: seq<Byte>, capacity: nat, turns: seq<Turn>)
    requires capacity > 0
    ensures var w := TakeAll(Start(payload, true), capacity, turns);
            !w.reader.AtEof? && ReadEof !in w.readings && w.held
  {
    HeldStays(capacity, Start(payload, true), turns);
  }

  lemma {:induction false} HeldStays(capacity: nat, w: World, turns: seq<Turn>)
    requires capacity > 0 && w.held && !w.reader.AtEof? && ReadEof !in w.readings
    ensures var r := TakeAll(w, capacity, turns);
            !r.reader.AtEof? && ReadEof !in r.readings && r.held
    decreases |turns|
  {
    hide ProducerStep, Answer;
    if turns != [] {
      HeldStays(capacity, Take(w, capacity, turns[0]), turns[1..]);
    }
  }

  /** Each side of the world is a run of its own loop: whatever the kernel answers next, serve_send goes on from
      where the writer stands, and the drained bytes are what drain_fd returns for the answers it saw. */
  ghost predicate Projects(payload: seq<Byte>, w: World) {
    && (forall more :: ServeRun(Producer(payload, Writing), w.writes + more) == ServeRun(w.producer, more))
    && (w.reader.Reading? ==> NoEnd(w.readings))
    && w.drained == DrainRun(w.readings)
  }

  predicate NoEnd(readings: seq<ReadAnswer>) {
    forall r | r in readings :: r.ReadSome? || r.ReadInterrupted?
  }

  lemma {:induction false} ServeRunStep(p: Producer, a: WriteAnswer, more: seq<WriteAnswer>)
    ensures ServeRun(p, [a] + more) == ServeRun(ProducerStep(p, a), more)
  {
    assert ([a] + more)[1..] == more;
  }

  lemma {:induction false} DrainAppend(readings: seq<ReadAnswer>, r: ReadAnswer)
    requires NoEnd(readings)
    ensures DrainRun(readings + [r]) == DrainRun(readings) + (if r.ReadSome? then r.bytes else [])
  {
    if readings == [] {
      assert [r][1..] == [];
      assert readings + [r] == [r];
      if r.ReadSome? {
        assert r.bytes + [] == r.bytes;
      }
    } else {
      assert readings[0] in readings;
      assert forall x | x in readings[1..] :: x in readings;
      assert (readings + [r])[1..] == readings[1..] + [r];
      DrainAppend(readings[1..], r);
    }
  }

  /** The bytes of the readings, gathered from the last one backwards. */
  function Joined(readings: seq<ReadAnswer>): seq<Byte> {
    if readings == [] then []
    else
      var last := readings[|readings| - 1];
      Joined(readings[..|readings| - 1]) + (if last.ReadSome? then last.bytes else [])
  }

  /** drain_fd returns the bytes of all readings before the first end of file or error, and nothing that comes after. */
  lemma {:induction false} DrainStopsAt(before: seq<ReadAnswer>, end: ReadAnswer, after: seq<ReadAnswer>)
    requires NoEnd(before) && (end.ReadEof? || end.ReadFailed?)
    ensures DrainRun(before + [end] + after) == Joined(before) == DrainRun(before)
    decreases |before|
  {
    DrainIsJoined(before);
    DrainCut(before, end, after);
  }

  lemma {:induction false} DrainIsJoined(readings: seq<ReadAnswer>)
    requires NoEnd(readings)
    ensures DrainRun(readings) == Joined(readings)
    decreases |readings|
  {
    hide DrainRun;
    if readings == [] {
      assert DrainRun([]) == [] by { NothingRead(); }
    } else {
      var init, last := readings[..|readings| - 1], readings[|readings| - 1];
      assert readings == init + [last] && forall r | r in init :: r in readings;
      DrainIsJoined(init);
      DrainAppend(init, last);
    }
  }

  lemma {:induction false} NothingRead()
    ensures DrainRun([]) == []
  {
  }

  lemma {:induction false} DrainCut(before: seq<ReadAnswer>, end: ReadAnswer, after: seq<ReadAnswer>)
    requires NoEnd(before) && (end.ReadEof? || end.ReadFailed?)
    ensures DrainRun(before + [end] + after) == DrainRun(before)
    decreases |before|
  {
    var all := before + [end] + after;
    if before == [] {
      assert all[0] == end;
    } else {
      assert all[0] == before[0] && all[1..] == before[1..] + [end] + after;
      assert before[0] in before && forall r | r in before[1..] :: r in before;
      DrainCut(before[1..], end, after);
    }
  }

  lemma {:induction false} TurnKeepsProjects(payload: seq<Byte>, capacity: nat, w: World, t: Turn)
    requires capacity > 0 && Projects(payload, w)
    ensures Projects(payload, Take(w, capacity, t))
  {
    hide ServeRun, DrainRun, ProducerStep;
    match t
    case WriterTurn(wish) =>
      if w.producer.status.Writing? {
        var a := Answer(w, capacity, wish);
        forall more ensures ServeRun(Producer(payload, Writing), w.writes + [a] + more)
            == ServeRun(ProducerStep(w.producer, a), more) {
          Assoc(w.writes, [a], more);
          ServeRunStep(w.producer, a, more);
        }
      }
    case ReaderInterrupted =>
      if w.reader.Reading? { DrainAppend(w.readings, ReadInterrupted); assert w.drained + [] == w.drained; }
    case ReaderFails =>
      if w.reader.Reading? { DrainAppend(w.readings, ReadFailed); assert w.drained + [] == w.drained; }
    case ReaderTurn(n) =>
      if w.reader.Reading? && w.pipe != [] {
        DrainAppend(w.readings, ReadSome(w.pipe[..Taken(n, Min(|w.pipe|, READ_CHUNK))]));
      } else if w.reader.Reading? && !w.producer.status.Writing? && !w.held {
        DrainAppend(w.readings, ReadEof);
        assert w.drained + [] == w.drained;
      }
  }

  lemma {:induction false} RunProjects(payload: seq<Byte>, capacity: nat, w: World, turns: seq<Turn>)
    requires capacity > 0 && Projects(payload, w)
    ensures Projects(payload, TakeAll(w, capacity, turns))
    decreases |turns|
  {
    hide Projects, Take;
    if turns != [] {
      TurnKeepsProjects(payload, capacity, w, turns[0]);
      RunProjects(payload, capacity, Take(w, capacity, turns[0]), turns[1..]);
    }
  }

  /** What drain_fd returns at end of file is the payload exactly when serve_send wrote it all. */
  lemma {:induction false} DrainFdReturnsPayload(payload: seq<Byte>, capacity: nat, held: bool, turns: seq<Turn>)
    requires capacity > 0
    requires TakeAll(Start(payload, held), capacity, turns).reader.AtEof?
    ensures var w := TakeAll(Start(payload, held), capacity, turns);
            && w.drained == DrainRun(w.readings) && w.producer == ServeRun(Producer(payload, Writing), w.writes)
            && (DrainRun(w.readings) == payload <==> ServeRun(Producer(payload, Writing), w.writes).status.Finished?)
  {
    hide TakeAll, DrainRun, ProducerStep, Sound;
    var w := TakeAll(Start(payload, held), capacity, turns);
    StartProjects(payload, held);
    RunProjects(payload, capacity, Start(payload, held), turns);
    StartSound(payload, capacity, held);
    RunKeepsSound(payload, capacity, Start(payload, held), turns);
    assert !w.producer.status.Writing? by { AtEofIsOver(payload, capacity, w); }
    assert w.writes + [] == w.writes;
    assert ServeRun(w.producer, []) == w.producer;
    PipeDelivers(payload, capacity, held, turns);
  }

  lemma {:induction false} AtEofIsOver(payload: seq<Byte>, capacity: nat, w: World)
    requires Sound(payload, capacity, w) && w.reader.AtEof?
    ensures !w.producer.status.Writing?
  {
  }

  lemma {:induction false} StartSound(payload: seq<Byte>, capacity: nat, held: bool)
    ensures Sound(payload, capacity, Start(payload, held))
  {
    assert [] + [] + payload == payload;
  }

  lemma {:induction false} StartProjects(payload: seq<Byte>, held: bool)
    ensures Projects(payload, Start(payload, held))
  {
    hide ServeRun;
    forall more: seq<WriteAnswer> ensures [] + more == more {
    }
  }

  /** Work left: bytes to write, bytes to read (each written byte is read once more), the writer's close, and
      the reader's end of file. */
  function Work(w: World): nat {
    2 * |w.producer.rest| + |w.pipe|
    + (if w.producer.status.Writing? then 1 else 0) + (if w.reader.Reading? then 1 else 0)
  }

  /** Neither side has given up, and nobody else holds a write end. */
  predicate Healthy(w: World) {
    !w.held && w.reader.Reading? && (w.producer.status.Writing? || w.producer.status.Finished?)
  }

  /** A turn that moves a healthy transfer on: read what is there, otherwise write, otherwise see the end. */
  function Useful(w: World): Turn {
    if w.pipe == [] && w.producer.status.Writing? then WriterTurn(Wrote(1)) else ReaderTurn(1)
  }

  lemma {:induction false} UsefulTurnWorks(w: World, capacity: nat)
    requires capacity > 0 && Healthy(w)
    ensures var r := Take(w, capacity, Useful(w));
            Work(r) < Work(w) && (Healthy(r) || (r.reader.AtEof? && r.producer.status.Finished?))
  {
  }

  /** No deadlock: from every point of every such transfer some continuation delivers the whole payload. */
  lemma {:induction false} CanAlwaysDeliver(payload: seq<Byte>, capacity: nat, w: World) returns (turns: seq<Turn>)
    requires capacity > 0 && Sound(payload, capacity, w) && Healthy(w)
    ensures var r := TakeAll(w, capacity, turns); r.reader.AtEof? && r.drained == payload
    decreases Work(w)
  {
    hide Take, Healthy, Work;
    var t := Useful(w);
    var r := Take(w, capacity, t);
    UsefulTurnWorks(w, capacity);
    TurnKeepsSound(payload, capacity, w, t);
    var rest := [];
    if Healthy(r) {
      rest := CanAlwaysDeliver(payload, capacity, r);
    } else {
      assert r.drained + [] + [] == r.drained;
    }
    turns := [t] + rest;
    assert turns[1..] == rest;
  }
}
