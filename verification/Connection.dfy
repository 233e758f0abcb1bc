/** The buffered socket with out-of-band descriptors (src/wire/wire.cpp, Connection). */
module Connections {
  import opened Bytes

  const MAX_FDS_PER_MSG: nat := 28
  const PUMP_SIZE: nat := 4096

  /** What one sendmsg call reports. A positive count is cut to what was offered. */
  datatype SendAnswer = Sent(n: nat) | SendInterrupted | SendFailed

  /** Bytes and descriptors that travel together in one direction. */
  datatype Batch = Batch(bytes: seq<Byte>, fds: seq<int>)

  /** What one recvmsg call may bring: 1 to 4096 bytes and at most 28 descriptors. */
  type Chunk = b: Batch | 1 <= |b.bytes| <= 4096 && |b.fds| <= 28
    witness Batch([0], [])

  /** The outcome of one poll, and of the recvmsg behind it. NoData stands for its three zero returns. */
  datatype RecvAnswer = NotReadable | NoData | RecvFailed | Got(chunk: Chunk)

  function BatchBytes(bs: seq<Batch>): seq<Byte> {
    if bs == [] then [] else bs[0].bytes + BatchBytes(bs[1..])
  }

  function BatchFds(bs: seq<Batch>): seq<int> {
    if bs == [] then [] else bs[0].fds + BatchFds(bs[1..])
  }

  /** The outcome of a flush: what is still queued, the answers left, the successful sends in order. */
  datatype Flushed = Flushed(ok: bool, outBuf: seq<Byte>, outFds: seq<int>, sends: seq<SendAnswer>, batches: seq<Batch>)

  function NextBatch(outBuf: seq<Byte>, outFds: seq<int>, n: nat): (b: Batch)
    requires outBuf != []
  {
    Batch(outBuf[..Taken(n, |outBuf|)], outFds[..Min(|outFds|, MAX_FDS_PER_MSG)])
  }

  /** Flushing the queues against a script of kernel answers; running out of answers is a failure. */
  function FlushRun(outBuf: seq<Byte>, outFds: seq<int>, sends: seq<SendAnswer>): Flushed
    decreases |sends|
  {
    if outBuf == [] then Flushed(outFds == [], outBuf, outFds, sends, [])
    else if sends == [] then Flushed(false, outBuf, outFds, sends, [])
    else match sends[0]
      case SendInterrupted => FlushRun(outBuf, outFds, sends[1..])
      case SendFailed => Flushed(false, outBuf, outFds, sends[1..], [])
      case Sent(n) =>
        var b := NextBatch(outBuf, outFds, n);
        var f := FlushRun(outBuf[|b.bytes|..], outFds[|b.fds|..], sends[1..]);
        f.(batches := [b] + f.batches)
  }

  lemma {:induction false} BatchesCons(b: Batch, bs: seq<Batch>)
    ensures BatchBytes([b] + bs) == b.bytes + BatchBytes(bs)
    ensures BatchFds([b] + bs) == b.fds + BatchFds(bs)
  {
    assert ([b] + bs)[1..] == bs;
  }

  /** Conservation in order: what went out, followed by what is still queued, is what was queued. */
  lemma {:induction false} FlushConserves(outBuf: seq<Byte>, outFds: seq<int>, sends: seq<SendAnswer>)
    ensures var f := FlushRun(outBuf, outFds, sends);
            && BatchBytes(f.batches) + f.outBuf == outBuf
            && BatchFds(f.batches) + f.outFds == outFds
            && (f.ok <==> f.outBuf == [] && f.outFds == [])
    decreases |sends|
  {
    hide Taken;
    if outBuf != [] && sends != [] {
      match sends[0]
      case SendFailed =>
      case SendInterrupted => FlushConserves(outBuf, outFds, sends[1..]);
      case Sent(n) =>
        var b := NextBatch(outBuf, outFds, n);
        FlushConserves(outBuf[|b.bytes|..], outFds[|b.fds|..], sends[1..]);
        var f := FlushRun(outBuf[|b.bytes|..], outFds[|b.fds|..], sends[1..]);
        BatchesCons(b, f.batches);
        Assoc(b.bytes, BatchBytes(f.batches), f.outBuf);
        Assoc(b.fds, BatchFds(f.batches), f.outFds);
        PrefixAndRest(outBuf, |b.bytes|);
        PrefixAndRest(outFds, |b.fds|);
    }
  }

  /** k sends carry min(28k, all) descriptors, so a successful flush of them needs enough sends, and the
      "fds without payload" exit is taken exactly when the descriptors outlast the bytes. */
  lemma {:induction false} FlushFdBound(outBuf: seq<Byte>, outFds: seq<int>, sends: seq<SendAnswer>)
    ensures var f := FlushRun(outBuf, outFds, sends);
            && |BatchFds(f.batches)| == Min(|outFds|, 28 * |f.batches|)
            && (f.ok ==> |outFds| <= 28 * |f.batches|)
            && (!f.ok && f.outBuf == [] <==> f.outBuf == [] && |outFds| > 28 * |f.batches|)
    decreases |sends|
  {
    FlushConserves(outBuf, outFds, sends);
    if outBuf != [] && sends != [] {
      match sends[0]
      case SendFailed =>
      case SendInterrupted => FlushFdBound(outBuf, outFds, sends[1..]);
      case Sent(n) =>
        var b := NextBatch(outBuf, outFds, n);
        FlushFdBound(outBuf[|b.bytes|..], outFds[|b.fds|..], sends[1..]);
        var f := FlushRun(outBuf[|b.bytes|..], outFds[|b.fds|..], sends[1..]);
        assert ([b] + f.batches)[1..] == f.batches;
    }
  }

  /** With at most 28 descriptors queued they all ride on the first successful send: before it none has
      left, after it none remains, whether or not the flush then succeeds. */
  lemma {:induction false} FdsRideOnFirstSend(outBuf: seq<Byte>, outFds: seq<int>, sends: seq<SendAnswer>)
    requires |outFds| <= MAX_FDS_PER_MSG
    ensures var f := FlushRun(outBuf, outFds, sends);
            && (f.batches == [] ==> f.outFds == outFds)
            && (f.batches != [] ==> f.outFds == [] && f.batches[0].fds == outFds)
            && (forall i | 1 <= i < |f.batches| :: f.batches[i].fds == [])
    decreases |sends|
  {
    if outBuf != [] && sends != [] {
      match sends[0]
      case SendFailed =>
      case SendInterrupted => FdsRideOnFirstSend(outBuf, outFds, sends[1..]);
      case Sent(n) =>
        var b := NextBatch(outBuf, outFds, n);
        assert outFds[|b.fds|..] == [];
        FdsRideOnFirstSend(outBuf[|b.bytes|..], [], sends[1..]);
        var f := FlushRun(outBuf[|b.bytes|..], [], sends[1..]);
        assert forall i | 0 <= i < |f.batches| :: f.batches[i].fds == [];
    }
  }

  /** The first answer that is not an interruption is a success. */
  predicate Ships(sends: seq<SendAnswer>) {
    sends != [] && (sends[0].Sent? || (sends[0].SendInterrupted? && Ships(sends[1..])))
  }

  /** A flush with something to send sends nothing exactly when the kernel's first real answer is a failure. */
  lemma {:induction false} NothingSentIff(outBuf: seq<Byte>, outFds: seq<int>, sends: seq<SendAnswer>)
    requires outBuf != []
    ensures FlushRun(outBuf, outFds, sends).batches == [] <==> !Ships(sends)
    decreases |sends|
  {
    if sends != [] && sends[0].SendInterrupted? {
      NothingSentIff(outBuf, outFds, sends[1..]);
    }
  }

  lemma {:induction false} BatchesConcat(a: seq<Batch>, b: seq<Batch>)
    ensures BatchBytes(a + b) == BatchBytes(a) + BatchBytes(b)
    ensures BatchFds(a + b) == BatchFds(a) + BatchFds(b)
  {
    if a == [] {
      assert a + b == b;
    } else {
      BatchesConcat(a[1..], b);
      Assoc(a[0].bytes, BatchBytes(a[1..]), BatchBytes(b));
      Assoc(a[0].fds, BatchFds(a[1..]), BatchFds(b));
      assert (a + b)[1..] == a[1..] + b;
    }
  }

  /** The connection's queues as one value. */
  datatype Queues = Queues(inBuf: seq<Byte>, inFds: seq<int>, outBuf: seq<Byte>, outFds: seq<int>)

  class Connection {
    var inBuf: seq<Byte>
    var inFds: seq<int>
    var outBuf: seq<Byte>
    var outFds: seq<int>

    // The kernel's side: its answers still to come.
    var sends: seq<SendAnswer>
    var recvs: seq<RecvAnswer>

    // History: the successful sends, and every descriptor passed to ::close, in order.
    ghost var shipped: seq<Batch>
    ghost var closed: seq<int>

    constructor (sends: seq<SendAnswer>, recvs: seq<RecvAnswer>)
      ensures Value() == Queues([], [], [], []) && this.sends == sends && this.recvs == recvs
      ensures shipped == [] && closed == []
    {
      inBuf, inFds, outBuf, outFds := [], [], [], [];
      this.sends, this.recvs := sends, recvs;
      shipped, closed := [], [];
    }

    ghost function Value(): Queues
      reads this
    {
      Queues(inBuf, inFds, outBuf, outFds)
    }

    method OutBytes(data: seq<Byte>)
      modifies this`outBuf
      ensures outBuf == old(outBuf) + data
    {
      outBuf := outBuf + data;
    }

    method OutFd(fd: int)
      modifies this`outFds
      ensures outFds == old(outFds) + [fd]
    {
      outFds := outFds + [fd];
    }

    /** Sends until both queues are empty; descriptors handed to the kernel are closed locally. */
    method Flush() returns (ok: bool)
      modifies this`outBuf, this`outFds, this`sends, this`shipped, this`closed
      ensures var f := FlushRun(old(outBuf), old(outFds), old(sends));
              && ok == f.ok && outBuf == f.outBuf && outFds == f.outFds && sends == f.sends
              && shipped == old(shipped) + f.batches
              && closed == old(closed) + BatchFds(f.batches)
    {
      ghost var whole := FlushRun(outBuf, outFds, sends);
      ghost var done: seq<Batch> := [];
      while outBuf != [] || outFds != []
        invariant var f := FlushRun(outBuf, outFds, sends);
                  whole == f.(batches := done + f.batches)
        invariant shipped == old(shipped) + done
        invariant closed == old(closed) + BatchFds(done)
        decreases |sends|
      {
        assert done + [] == done;
        if outBuf == [] {
          return false;
        }
        if sends == [] {
          return false;
        }
        var answer := sends[0];
        sends := sends[1..];
        match answer {
          case SendInterrupted =>
          case SendFailed =>
            return false;
          case Sent(n) =>
            var nfd := Min(|outFds|, MAX_FDS_PER_MSG);
            ghost var b := NextBatch(outBuf, outFds, n);
            BatchesConcat(done, [b]);
            assert BatchFds([b]) == b.fds + BatchFds([]);
            Assoc(done, [b], FlushRun(outBuf[|b.bytes|..], outFds[nfd..], sends).batches);
            done := done + [b];
            shipped := shipped + [b];
            outBuf := outBuf[Taken(n, |outBuf|)..];
            closed := closed + outFds[..nfd];
            outFds := outFds[nfd..];
        }
      }
      assert done + [] == done;
      return true;
    }

    /** Whether poll reports input. A negative report is consumed; a positive one leaves the recvmsg to Pump. */
    method WaitReadable() returns (ready: bool)
      modifies this`recvs
      ensures ready <==> old(recvs) != [] && !old(recvs)[0].NotReadable?
      ensures recvs == if ready || old(recvs) == [] then old(recvs) else old(recvs)[1..]
    {
      if recvs == [] {
        return false;
      }
      ready := !recvs[0].NotReadable?;
      if !ready {
        recvs := recvs[1..];
      }
    }

    /** One recvmsg: -1 on error, 0 when nothing came, otherwise the number of bytes appended. */
    method Pump() returns (n: int)
      requires recvs != [] && !recvs[0].NotReadable?
      modifies this`inBuf, this`inFds, this`recvs
      ensures recvs == old(recvs)[1..]
      ensures match old(recvs)[0]
              case Got(c) => n == |c.bytes| && inBuf == old(inBuf) + c.bytes && inFds == old(inFds) + c.fds
              case NoData => n == 0 && inBuf == old(inBuf) && inFds == old(inFds)
              case _ => n == -1 && inBuf == old(inBuf) && inFds == old(inFds)
    {
      var answer := recvs[0];
      recvs := recvs[1..];
      match answer {
        case RecvFailed => return -1;
        case NoData => return 0;
        case Got(c) =>
          inBuf := inBuf + c.bytes;
          inFds := inFds + c.fds;
          return |c.bytes|;
      }
    }

    method InConsume(n: nat)
      modifies this`inBuf
      ensures inBuf == old(inBuf)[Min(n, |old(inBuf)|)..]
    {
      inBuf := inBuf[Min(n, |inBuf|)..];
    }

    /** The oldest delivered descriptor, -1 when none is queued. */
    method PopFd() returns (fd: int)
      modifies this`inFds
      ensures (fd, inFds) == PoppedFd(old(inFds))
    {
      if inFds == [] {
        return -1;
      }
      fd := inFds[0];
      inFds := inFds[1..];
    }

    /** Closes every descriptor still queued in either direction and empties all queues. */
    method Close()
      modifies this
      ensures Value() == Queues([], [], [], [])
      ensures closed == old(closed) + old(inFds) + old(outFds)
      ensures shipped == old(shipped) && sends == old(sends) && recvs == old(recvs)
    {
      closed := closed + inFds + outFds;
      inFds, outFds, inBuf, outBuf := [], [], [], [];
    }
  }

  function PoppedFd(fds: seq<int>): (int, seq<int>) {
    if fds == [] then (-1, fds) else (fds[0], fds[1..])
  }
}
