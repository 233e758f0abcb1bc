/** Who owns which file descriptor: the Fd wrapper (src/core/fd.h, src/core/fd.cpp), raw numbers in transit,
    the connection's queues, and serve_send. */
module Descriptors {
  import opened Bytes
  import opened Connections

  // ---- The wrapper in place -----------------------------------------------

  /** The process's descriptor table. */
  class Kernel {
    var open: set<int>
    ghost var closes: seq<int>

    /** ::close on an open descriptor. */
    method Close(fd: int)
      requires fd in open
      modifies this
      ensures open == old(open) - {fd} && closes == old(closes) + [fd]
    {
      open := open - {fd};
      closes := closes + [fd];
    }
  }

  /** core::Fd: owns one descriptor, or none (-1). */
  class Fd {
    var fd: int

    constructor (fd: int)
      ensures this.fd == fd
    {
      this.fd := fd;
    }

    /** What a live wrapper may rely on: the number it holds is open. */
    ghost predicate Owns(k: Kernel)
      reads this, k
    {
      fd >= 0 ==> fd in k.open
    }

    method Reset(k: Kernel, to: int)
      requires Owns(k)
      modifies this, k
      ensures fd == to
      ensures if old(fd) >= 0 then k.open == old(k.open) - {old(fd)} && k.closes == old(k.closes) + [old(fd)]
              else k.open == old(k.open) && k.closes == old(k.closes)
    {
      if fd >= 0 {
        k.Close(fd);
      }
      fd := to;
    }

    method Release() returns (f: int)
      modifies this
      ensures f == old(fd) && fd == -1
    {
      f := fd;
      fd := -1;
    }

    /** Move assignment: close what is held, take the other's descriptor, leave the other empty;
        nothing at all when assigned to itself. */
    method MoveFrom(k: Kernel, other: Fd)
      requires Owns(k)
      modifies this, other, k
      ensures this == other ==> fd == old(fd) && k.open == old(k.open) && k.closes == old(k.closes)
      ensures this != other ==> fd == old(other.fd) && other.fd == -1
      ensures this != other && old(fd) >= 0 ==>
              k.open == old(k.open) - {old(fd)} && k.closes == old(k.closes) + [old(fd)]
      ensures this != other && old(fd) < 0 ==> k.open == old(k.open) && k.closes == old(k.closes)
    {
      if this != other {
        Reset(k, -1);
        fd := other.fd;
        other.fd := -1;
      }
    }
  }

  // ---- The ledger ---------------------------------------------------------

  /** Every place a descriptor number can live, the kernel's table, and the history of opens and closes.
      `faulty` records a close of something not open. */
  datatype Ledger = Ledger(
    open: set<int>, wrappers: seq<int>, hand: seq<int>, inFds: seq<int>, outFds: seq<int>, outBuf: seq<Byte>, sock: int,
    granted: seq<int>, closes: seq<int>, faulty: bool)

  const EMPTY: Ledger := Ledger({}, [], [], [], [], [], -1, [], [], false)

  /** One operation of the program, with what the kernel decides in it. An operation that does not apply
      (an index out of range, an empty hand, descriptors the kernel would not hand out) changes nothing. */
  datatype Op =
    | Connect(fd: int)              // socket()
    | MakePipe(r: int, w: int)      // two new wrappers
    | Wrap                          // Fd(raw) on the number in hand
    | Move(dst: nat, src: nat)      // dst = std::move(src)
    | Release(slot: nat)            // the number is now in hand
    | Reset(slot: nat)              // reset() or ~Fd()
    | OutFd                         // out_fd() of the number in hand
    | OutBytes(data: seq<Byte>)
    | Flush(sends: seq<SendAnswer>)
    | Pump(fds: seq<int>)           // descriptors arriving with recvmsg
    | PopFd                         // pop_fd() into the hand
    | ServeSend                     // serve_send() of the number in hand
    | CloseConnection

  function Closing(l: Ledger, fd: int): Ledger {
    if fd < 0 then l
    else if fd in l.open then l.(open := l.open - {fd}, closes := l.closes + [fd])
    else l.(closes := l.closes + [fd], faulty := true)
  }

  function Opening(l: Ledger, fd: int): Ledger {
    l.(open := l.open + {fd}, granted := l.granted + [fd])
  }

  predicate Unused(l: Ledger, fd: int) {
    fd >= 0 && fd !in l.open
  }

  /** Closing the first n descriptors queued for sending, front first. */
  function CloseOut(l: Ledger, n: nat): Ledger
    decreases n
  {
    if n == 0 || l.outFds == [] then l
    else CloseOut(Closing(l.(outFds := l.outFds[1..]), l.outFds[0]), n - 1)
  }

  function CloseIn(l: Ledger): Ledger
    decreases |l.inFds|
  {
    if l.inFds == [] then l else CloseIn(Closing(l.(inFds := l.inFds[1..]), l.inFds[0]))
  }

  /** Receiving descriptors one after the other; the kernel never hands out a number in use. */
  function Arrive(l: Ledger, fds: seq<int>): Ledger
    decreases |fds|
  {
    if fds == [] then l
    else if Unused(l, fds[0]) then Arrive(Opening(l, fds[0]).(inFds := l.inFds + [fds[0]]), fds[1..])
    else Arrive(l, fds[1..])
  }

  function Apply(l: Ledger, op: Op): Ledger {
    match op
    case Connect(fd) => if l.sock == -1 && Unused(l, fd) then Opening(l, fd).(sock := fd) else l
    case MakePipe(r, w) =>
      if r != w && Unused(l, r) && Unused(l, w) then Opening(Opening(l, r), w).(wrappers := l.wrappers + [r] + [w])
          else l
    case Wrap => if l.hand == [] then l else l.(hand := l.hand[1..], wrappers := l.wrappers + [l.hand[0]])
    case Move(dst, src) =>
      if dst >= |l.wrappers| || src >= |l.wrappers| || dst == src then l
      else
        var emptied := Closing(l.(wrappers := l.wrappers[dst := -1]), l.wrappers[dst]);
        emptied.(wrappers := emptied.wrappers[dst := l.wrappers[src]][src := -1])
    case Release(slot) =>
      if slot >= |l.wrappers| || l.wrappers[slot] < 0 then l
      else l.(wrappers := l.wrappers[slot := -1], hand := l.hand + [l.wrappers[slot]])
    case Reset(slot) =>
      if slot >= |l.wrappers| then l else Closing(l.(wrappers := l.wrappers[slot := -1]), l.wrappers[slot])
    case OutFd => if l.hand == [] then l else l.(hand := l.hand[1..], outFds := l.outFds + [l.hand[0]])
    case OutBytes(data) => l.(outBuf := l.outBuf + data)
    case Flush(sends) =>
      var f := FlushRun(l.outBuf, l.outFds, sends);
      CloseOut(l.(outBuf := f.outBuf), |BatchFds(f.batches)|)
    case Pump(fds) => Arrive(l, fds)
    case PopFd => if l.inFds == [] then l else l.(inFds := l.inFds[1..], hand := l.hand + [l.inFds[0]])
    case ServeSend => if l.hand == [] then l else Closing(l.(hand := l.hand[1..]), l.hand[0])
    case CloseConnection =>
      var c := Closing(l.(sock := -1), l.sock);
      var d := CloseIn(c);
      CloseOut(d, |d.outFds|).(outBuf := [])
  }

  function ApplyAll(l: Ledger, ops: seq<Op>): Ledger
    decreases |ops|
  {
    if ops == [] then l else ApplyAll(Apply(l, ops[0]), ops[1..])
  }

  /** All numbers held anywhere, with multiplicity. */
  ghost function Holdings(l: Ledger): multiset<int> {
    multiset(l.wrappers) + multiset(l.hand) + multiset(l.inFds) + multiset(l.outFds) + multiset{l.sock}
  }

  /** Each open descriptor has exactly one holder, nothing else is held, nothing was closed that was not open,
      and every descriptor was closed once for each time it was granted, except those still open. */
  ghost predicate Balanced(l: Ledger) {
    && !l.faulty
    && (forall fd :: fd >= 0 ==> Holdings(l)[fd] == if fd in l.open then 1 else 0)
    && (forall fd :: multiset(l.granted)[fd] == multiset(l.closes)[fd] + if fd in l.open then 1 else 0)
    && (forall fd | fd in l.hand || fd in l.inFds || fd in l.outFds || fd in l.open :: fd >= 0)
  }

  // ---- Elementary steps ---------------------------------------------------

  lemma {:induction false} FrontOf(s: seq<int>)
    requires s != []
    ensures multiset(s) == multiset{s[0]} + multiset(s[1..])
    ensures forall x | x in s[1..] :: x in s
  {
    assert s == [s[0]] + s[1..];
  }

  lemma {:induction false} SlotOf(s: seq<int>, i: nat, v: int)
    requires i < |s|
    ensures multiset(s[i := v]) + multiset{s[i]} == multiset(s) + multiset{v}
  {
    assert s == s[..i] + [s[i]] + s[i + 1..];
    assert s[i := v] == s[..i] + [v] + s[i + 1..];
  }

  /** Taking one number out of its place and closing it. */
  lemma {:induction false} ClosingBalances(l: Ledger, l': Ledger, fd: int)
    requires Balanced(l)
    requires Holdings(l') + multiset{fd} == Holdings(l) || Holdings(l') + multiset{fd} == Holdings(l) + multiset{-1}
    requires l'.open == l.open && l'.granted == l.granted && l'.closes == l.closes && l'.faulty == l.faulty
    requires forall x | x in l'.hand || x in l'.inFds || x in l'.outFds :: x >= 0
    ensures Balanced(Closing(l', fd))
    ensures Holdings(Closing(l', fd)) == Holdings(l')
    ensures fd >= 0 ==> fd in l.open && Closing(l', fd) == l'.(open := l.open - {fd}, closes := l.closes + [fd])
  {
    hide Holdings;
    var r := Closing(l', fd);
    assert Holdings(r) == Holdings(l') by { HoldingsOnly(r, l'); }
    if fd >= 0 {
      assert Holdings(l)[fd] >= 1;
      assert multiset(r.closes) == multiset(l.closes) + multiset{fd};
      forall x | x >= 0 ensures Holdings(r)[x] == if x in r.open then 1 else 0 {
        assert (Holdings(l') + multiset{fd})[x] == Holdings(l)[x];
      }
    }
  }

  lemma {:induction false} HoldingsOnly(a: Ledger, b: Ledger)
    requires a.wrappers == b.wrappers && a.hand == b.hand && a.inFds == b.inFds && a.outFds == b.outFds &&
             a.sock == b.sock
    ensures Holdings(a) == Holdings(b)
  {
  }

  /** Moving numbers between places, without the kernel. */
  lemma {:induction false} MovingBalances(l: Ledger, l': Ledger)
    requires Balanced(l) && Holdings(l') == Holdings(l)
    requires l'.open == l.open && l'.granted == l.granted && l'.closes == l.closes && l'.faulty == l.faulty
    requires forall x | x in l'.hand || x in l'.inFds || x in l'.outFds :: x >= 0
    ensures Balanced(l')
  {
    hide Holdings;
  }

  /** A new descriptor in a new place. */
  lemma {:induction false} OpeningBalances(l: Ledger, l': Ledger, fd: int)
    requires Balanced(l) && Unused(l, fd)
    requires Holdings(l') == Holdings(l) + multiset{fd} || Holdings(l') + multiset{-1} == Holdings(l) + multiset{fd}
    requires l'.open == l.open + {fd} && l'.granted == l.granted + [fd] && l'.closes == l.closes &&
             l'.faulty == l.faulty
    requires forall x | x in l'.hand || x in l'.inFds || x in l'.outFds :: x >= 0
    ensures Balanced(l')
  {
    hide Holdings;
    assert multiset(l'.granted) == multiset(l.granted) + multiset{fd};
  }

  lemma {:induction false} OutFront(l: Ledger)
    requires l.outFds != []
    ensures Holdings(l.(outFds := l.outFds[1..])) + multiset{l.outFds[0]} == Holdings(l)
    ensures l.outFds[0] in l.outFds && forall x | x in l.outFds[1..] :: x in l.outFds
  {
    FrontOf(l.outFds);
  }

  lemma {:induction false} InFront(l: Ledger)
    requires l.inFds != []
    ensures Holdings(l.(inFds := l.inFds[1..])) + multiset{l.inFds[0]} == Holdings(l)
    ensures l.inFds[0] in l.inFds && forall x | x in l.inFds[1..] :: x in l.inFds
  {
    FrontOf(l.inFds);
  }

  lemma {:induction false} HandFront(l: Ledger)
    requires l.hand != []
    ensures Holdings(l.(hand := l.hand[1..])) + multiset{l.hand[0]} == Holdings(l)
    ensures l.hand[0] in l.hand && forall x | x in l.hand[1..] :: x in l.hand
  {
    FrontOf(l.hand);
  }

  /** A number added at the end of a place is one holding more. */
  lemma {:induction false} JoinWrappers(l: Ledger, fd: int)
    ensures Holdings(l.(wrappers := l.wrappers + [fd])) == Holdings(l) + multiset{fd}
  {
  }

  lemma {:induction false} JoinHand(l: Ledger, fd: int)
    ensures Holdings(l.(hand := l.hand + [fd])) == Holdings(l) + multiset{fd}
  {
  }

  lemma {:induction false} JoinIn(l: Ledger, fd: int)
    ensures Holdings(l.(inFds := l.inFds + [fd])) == Holdings(l) + multiset{fd}
  {
  }

  lemma {:induction false} JoinOut(l: Ledger, fd: int)
    ensures Holdings(l.(outFds := l.outFds + [fd])) == Holdings(l) + multiset{fd}
  {
  }

  // ---- Every operation keeps the balance ----------------------------------

  lemma {:induction false} CloseOutBalances(l: Ledger, n: nat)
    requires Balanced(l) && n <= |l.outFds|
    ensures var r := CloseOut(l, n);
            Balanced(r) && r == l.(outFds := l.outFds[n..], open := r.open, closes := l.closes + l.outFds[..n])
    decreases n
  {
    hide Balanced, Closing, Holdings;
    if n == 0 {
      assert l.closes + l.outFds[..0] == l.closes && l.outFds[0..] == l.outFds;
    } else {
      var fd := l.outFds[0];
      var l' := l.(outFds := l.outFds[1..]);
      OutFront(l);
      NonNegative(l, fd);
      ClosingBalances(l, l', fd);
      CloseOutBalances(Closing(l', fd), n - 1);
      assert l.outFds[1..][n - 1..] == l.outFds[n..];
      assert l.closes + [fd] + l.outFds[1..][..n - 1] == l.closes + l.outFds[..n];
    }
  }

  lemma {:induction false} NonNegative(l: Ledger, fd: int)
    requires Balanced(l) && (fd in l.hand || fd in l.inFds || fd in l.outFds)
    ensures fd >= 0
    ensures forall x | x in l.hand || x in l.inFds || x in l.outFds :: x >= 0
  {
  }

  lemma {:induction false} CloseInBalances(l: Ledger)
    requires Balanced(l)
    ensures var r := CloseIn(l);
            Balanced(r) && r == l.(inFds := [], open := r.open, closes := l.closes + l.inFds)
    decreases |l.inFds|
  {
    hide Balanced, Closing, Holdings;
    if l.inFds == [] {
      assert l.closes + [] == l.closes;
    } else {
      var fd := l.inFds[0];
      var l' := l.(inFds := l.inFds[1..]);
      InFront(l);
      NonNegative(l, fd);
      ClosingBalances(l, l', fd);
      CloseInBalances(Closing(l', fd));
      assert l.closes + [fd] + l.inFds[1..] == l.closes + l.inFds;
    }
  }

  lemma {:induction false} ArriveBalances(l: Ledger, fds: seq<int>)
    requires Balanced(l)
    ensures Balanced(Arrive(l, fds))
    decreases |fds|
  {
    hide Balanced, Holdings;
    if fds != [] {
      if Unused(l, fds[0]) {
        var r := Opening(l, fds[0]).(inFds := l.inFds + [fds[0]]);
        JoinIn(l, fds[0]);
        HoldingsOnly(r, l.(inFds := l.inFds + [fds[0]]));
        AllNonNegative(l);
        OpeningBalances(l, r, fds[0]);
        ArriveBalances(r, fds[1..]);
      } else {
        ArriveBalances(l, fds[1..]);
      }
    }
  }

  lemma {:induction false} AllNonNegative(l: Ledger)
    requires Balanced(l)
    ensures forall x | x in l.hand || x in l.inFds || x in l.outFds :: x >= 0
  {
  }

  lemma {:induction false} MakePipeBalances(l: Ledger, r: int, w: int)
    requires Balanced(l) && r != w && Unused(l, r) && Unused(l, w)
    ensures Balanced(Apply(l, MakePipe(r, w)))
  {
    hide Balanced, Holdings;
    AllNonNegative(l);
    var a := Opening(l, r).(wrappers := l.wrappers + [r]);
    JoinWrappers(l, r);
    HoldingsOnly(a, l.(wrappers := l.wrappers + [r]));
    OpeningBalances(l, a, r);
    var b := Opening(a, w).(wrappers := a.wrappers + [w]);
    JoinWrappers(a, w);
    HoldingsOnly(b, a.(wrappers := a.wrappers + [w]));
    OpeningBalances(a, b, w);
    assert b == Apply(l, MakePipe(r, w));
  }

  lemma {:induction false} MoveBalances(l: Ledger, dst: nat, src: nat)
    requires Balanced(l)
    ensures Balanced(Apply(l, Move(dst, src)))
  {
    hide Balanced, Closing, Holdings;
    if dst < |l.wrappers| && src < |l.wrappers| && dst != src {
      AllNonNegative(l);
      var l' := l.(wrappers := l.wrappers[dst := -1]);
      SlotHoldings(l, l', dst, -1);
      ClosingBalances(l, l', l.wrappers[dst]);
      var emptied := Closing(l', l.wrappers[dst]);
      ClosingKeeps(l', l.wrappers[dst]);
      var moved := l.wrappers[src];
      var half := emptied.(wrappers := emptied.wrappers[dst := moved]);
      var full := half.(wrappers := half.wrappers[src := -1]);
      SlotHoldings(emptied, half, dst, moved);
      SlotHoldings(half, full, src, -1);
      SameTotal(Holdings(emptied), Holdings(half), Holdings(full), moved);
      MovingBalances(emptied, full);
    }
  }

  lemma {:induction false} SameTotal(a: multiset<int>, b: multiset<int>, c: multiset<int>, x: int)
    requires b + multiset{-1} == a + multiset{x} && c + multiset{x} == b + multiset{-1}
    ensures c == a
  {
    forall y ensures c[y] == a[y] {
      assert (c + multiset{x})[y] == (a + multiset{x})[y];
    }
  }

  lemma {:induction false} ClosingKeeps(l: Ledger, fd: int)
    ensures var r := Closing(l, fd);
            r.wrappers == l.wrappers && r.hand == l.hand && r.inFds == l.inFds && r.outFds == l.outFds &&
                r.sock == l.sock
            && r.outBuf == l.outBuf && r.granted == l.granted
  {
  }

  lemma {:induction false} SlotHoldings(l: Ledger, l': Ledger, i: nat, v: int)
    requires i < |l.wrappers| && l'.wrappers == l.wrappers[i := v]
    requires l'.hand == l.hand && l'.inFds == l.inFds && l'.outFds == l.outFds && l'.sock == l.sock
    ensures Holdings(l') + multiset{l.wrappers[i]} == Holdings(l) + multiset{v}
  {
    SlotOf(l.wrappers, i, v);
  }

  lemma {:induction false} ReleaseBalances(l: Ledger, slot: nat)
    requires Balanced(l)
    ensures Balanced(Apply(l, Release(slot)))
  {
    hide Balanced;
    if slot < |l.wrappers| && l.wrappers[slot] >= 0 {
      ReleasedBalances(l, slot);
    }
  }

  /** Emptying a slot into the hand leaves one number less in place of it: the empty mark. */
  lemma {:induction false} ReleasedBalances(l: Ledger, slot: nat)
    requires Balanced(l) && slot < |l.wrappers| && l.wrappers[slot] >= 0
    ensures Balanced(Apply(l, Release(slot)))
  {
    hide Holdings;
    var half := l.(wrappers := l.wrappers[slot := -1]);
    SlotHoldings(l, half, slot, -1);
    JoinHand(half, l.wrappers[slot]);
    assert Apply(l, Release(slot)) == half.(hand := half.hand + [l.wrappers[slot]]);
  }

  lemma {:induction false} ResetBalances(l: Ledger, slot: nat)
    requires Balanced(l)
    ensures Balanced(Apply(l, Reset(slot)))
  {
    hide Balanced, Closing, Holdings;
    if slot < |l.wrappers| {
      AllNonNegative(l);
      var l' := l.(wrappers := l.wrappers[slot := -1]);
      SlotHoldings(l, l', slot, -1);
      ClosingBalances(l, l', l.wrappers[slot]);
    }
  }

  /** Numbers moving between the hand and the other places. */
  lemma {:induction false} HandBalances(l: Ledger, op: Op)
    requires Balanced(l) && (op.Wrap? || op.OutFd? || op.PopFd? || op.ServeSend?)
    ensures Balanced(Apply(l, op))
  {
    hide Balanced, Closing, Holdings;
    AllNonNegative(l);
    if op.PopFd? {
      if l.inFds != [] {
        InFront(l);
        JoinHand(l.(inFds := l.inFds[1..]), l.inFds[0]);
        MovingBalances(l, Apply(l, op));
      }
    } else if l.hand != [] {
      HandFront(l);
      var rest := l.(hand := l.hand[1..]);
      if op.ServeSend? {
        ClosingBalances(l, rest, l.hand[0]);
      } else {
        JoinWrappers(rest, l.hand[0]);
        JoinOut(rest, l.hand[0]);
        MovingBalances(l, Apply(l, op));
      }
    }
  }

  lemma {:induction false} ConnectBalances(l: Ledger, fd: int)
    requires Balanced(l)
    ensures Balanced(Apply(l, Connect(fd)))
  {
    hide Balanced;
    if l.sock == -1 && Unused(l, fd) {
      AllNonNegative(l);
      OpeningBalances(l, Apply(l, Connect(fd)), fd);
    }
  }

  lemma {:induction false} CloseConnectionBalances(l: Ledger)
    requires Balanced(l)
    ensures var r := Apply(l, CloseConnection);
            Balanced(r) && r.inFds == [] && r.outFds == [] && r.sock == -1 && r.wrappers == l.wrappers &&
                r.hand == l.hand
  {
    hide Balanced, Closing, CloseIn, CloseOut;
    AllNonNegative(l);
    var l' := l.(sock := -1);
    ClosingBalances(l, l', l.sock);
    ClosingKeeps(l', l.sock);
    var c := Closing(l', l.sock);
    CloseInBalances(c);
    var d := CloseIn(c);
    CloseOutBalances(d, |d.outFds|);
    BufferIsNoHolding(CloseOut(d, |d.outFds|), []);
  }

  lemma {:induction false} BufferIsNoHolding(l: Ledger, b: seq<Byte>)
    requires Balanced(l)
    ensures Balanced(l.(outBuf := b))
  {
    assert Holdings(l.(outBuf := b)) == Holdings(l);
  }

  /** A flush closes exactly the descriptors its successful sends carried, whether or not it succeeds. */
  lemma {:induction false} FlushBalances(l: Ledger, sends: seq<SendAnswer>)
    requires Balanced(l)
    ensures var f := FlushRun(l.outBuf, l.outFds, sends);
            var r := Apply(l, Flush(sends));
            && Balanced(r) && r.outFds == f.outFds && r.closes == l.closes + BatchFds(f.batches)
  {
    hide Balanced, CloseOut, FlushRun;
    var f := FlushRun(l.outBuf, l.outFds, sends);
    FlushConserves(l.outBuf, l.outFds, sends);
    BufferIsNoHolding(l, f.outBuf);
    var n := |BatchFds(f.batches)|;
    assert l.outFds[..n] == BatchFds(f.batches) && l.outFds[n..] == f.outFds;
    CloseOutBalances(l.(outBuf := f.outBuf), n);
  }

  lemma {:induction false} OpenUnlessSent(l: Ledger, w: int, sends: seq<SendAnswer>)
    requires Balanced(l) && l.outFds == [w]
    ensures w in Apply(l, Flush(sends)).open <==> FlushRun(l.outBuf, l.outFds, sends).batches == []
  {
    hide Closing, CloseOut, FlushRun;
    var f := FlushRun(l.outBuf, l.outFds, sends);
    FdsRideOnFirstSend(l.outBuf, l.outFds, sends);
    FlushConserves(l.outBuf, l.outFds, sends);
    FlushBalances(l, sends);
    var r := Apply(l, Flush(sends));
    CloseOutBalances(l.(outBuf := f.outBuf), |BatchFds(f.batches)|) by { BufferIsNoHolding(l, f.outBuf); }
    assert w in l.outFds;
    assert Holdings(l)[w] == 1;
    if f.batches == [] {
      assert Holdings(r)[w] == 1 by { HoldingsOnly(r, l); }
    } else {
      assert r.outFds == [];
      OutFront(l);
      assert l.outFds[1..] == [];
      HoldingsOnly(r, l.(outFds := l.outFds[1..]));
    }
  }

  /** A single queued descriptor is still open after a flush, whose result paste ignores, exactly when there is no
      byte to carry it or the kernel's first answer, interruptions apart, is a failure. */
  lemma {:induction false} WriteEndStaysOpen(l: Ledger, w: int, sends: seq<SendAnswer>)
    requires Balanced(l) && l.outFds == [w]
    ensures w in Apply(l, Flush(sends)).open <==> l.outBuf == [] || !Ships(sends)
  {
    hide Balanced, Apply, Ships;
    OpenUnlessSent(l, w, sends);
    if l.outBuf == [] {
      NothingToSend(l.outFds, sends);
    } else {
      NothingSentIff(l.outBuf, l.outFds, sends);
    }
  }

  lemma {:induction false} NothingToSend(outFds: seq<int>, sends: seq<SendAnswer>)
    ensures FlushRun([], outFds, sends).batches == []
  {
  }

  lemma {:induction false} OpBalances(l: Ledger, op: Op)
    requires Balanced(l)
    ensures Balanced(Apply(l, op))
  {
    hide Balanced, Apply;
    match op
    case Connect(fd) => ConnectBalances(l, fd);
    case MakePipe(r, w) => PipeOrNothing(l, r, w);
    case Move(dst, src) => MoveBalances(l, dst, src);
    case Release(slot) => ReleaseBalances(l, slot);
    case Reset(slot) => ResetBalances(l, slot);
    case OutBytes(data) => BytesOnly(l, data);
    case Flush(sends) => FlushBalances(l, sends);
    case Pump(fds) => PumpBalances(l, fds);
    case CloseConnection => CloseConnectionBalances(l);
    case _ => HandBalances(l, op);
  }

  lemma {:induction false} PipeOrNothing(l: Ledger, r: int, w: int)
    requires Balanced(l)
    ensures Balanced(Apply(l, MakePipe(r, w)))
  {
    hide Balanced;
    if r != w && Unused(l, r) && Unused(l, w) {
      MakePipeBalances(l, r, w);
    }
  }

  lemma {:induction false} PumpBalances(l: Ledger, fds: seq<int>)
    requires Balanced(l)
    ensures Balanced(Apply(l, Pump(fds)))
  {
    hide Balanced;
    ArriveBalances(l, fds);
  }

  lemma {:induction false} BytesOnly(l: Ledger, data: seq<Byte>)
    requires Balanced(l)
    ensures Balanced(Apply(l, OutBytes(data)))
  {
    hide Balanced;
    BufferIsNoHolding(l, l.outBuf + data);
  }

  /** Over every sequence of operations: one holder for each open descriptor, no double close, and every
      descriptor closed once for each time it was opened unless it is still open. */
  lemma {:induction false} LedgerStaysBalanced(l: Ledger, ops: seq<Op>)
    requires Balanced(l)
    ensures Balanced(ApplyAll(l, ops))
    decreases |ops|
  {
    hide Balanced, Apply;
    if ops != [] {
      OpBalances(l, ops[0]);
      LedgerStaysBalanced(Apply(l, ops[0]), ops[1..]);
    }
  }

  // ---- The end ------------------------------------------------------------

  /** Destroying the first n wrappers. */
  function Destroy(l: Ledger, n: nat): Ledger
    decreases n
  {
    if n == 0 then l else Destroy(Apply(l, Reset(n - 1)), n - 1)
  }

  lemma {:induction false} DestroyEmpties(l: Ledger, n: nat)
    requires Balanced(l) && n <= |l.wrappers|
    ensures var r := Destroy(l, n);
            && Balanced(r) && |r.wrappers| == |l.wrappers|
            && r.hand == l.hand && r.inFds == l.inFds && r.outFds == l.outFds && r.sock == l.sock
            && (forall i | 0 <= i < n :: r.wrappers[i] == -1)
            && (forall i | n <= i < |l.wrappers| :: r.wrappers[i] == l.wrappers[i])
    decreases n
  {
    hide Balanced, Closing;
    if n > 0 {
      ResetBalances(l, n - 1);
      ClosingKeeps(l.(wrappers := l.wrappers[n - 1 := -1]), l.wrappers[n - 1]);
      DestroyEmpties(Apply(l, Reset(n - 1)), n - 1);
    }
  }

  /** After any sequence of operations that leaves no raw number in hand, closing the connection and destroying
      the wrappers leaves no descriptor open, and every descriptor ever opened was closed exactly once. */
  lemma {:induction false} NothingLeaks(ops: seq<Op>)
    requires ApplyAll(EMPTY, ops).hand == []
    ensures var c := Apply(ApplyAll(EMPTY, ops), CloseConnection);
            var r := Destroy(c, |c.wrappers|);
            !r.faulty && r.open == {} && multiset(r.closes) == multiset(r.granted)
  {
    hide Apply, ApplyAll, Destroy;
    LedgerStaysBalanced(EMPTY, ops);
    var l := ApplyAll(EMPTY, ops);
    CloseConnectionBalances(l);
    var c := Apply(l, CloseConnection);
    DestroyEmpties(c, |c.wrappers|);
    var r := Destroy(c, |c.wrappers|);
    NoHolding(r);
    AllClosed(r);
  }

  lemma {:induction false} AllClosed(l: Ledger)
    requires Balanced(l) && forall fd :: fd >= 0 ==> Holdings(l)[fd] == 0
    ensures l.open == {} && multiset(l.closes) == multiset(l.granted)
  {
    hide Holdings;
    forall fd ensures fd !in l.open {
      var held := Holdings(l)[fd];
    }
    assert l.open == {};
    forall fd ensures multiset(l.closes)[fd] == multiset(l.granted)[fd] {
      assert fd !in l.open;
    }
    assert multiset(l.closes) <= multiset(l.granted) <= multiset(l.closes);
  }

  lemma {:induction false} NoHolding(l: Ledger)
    requires l.hand == [] && l.inFds == [] && l.outFds == [] && l.sock == -1
    requires forall i | 0 <= i < |l.wrappers| :: l.wrappers[i] == -1
    ensures forall fd :: fd >= 0 ==> Holdings(l)[fd] == 0
  {
    forall fd | fd >= 0 ensures multiset(l.wrappers)[fd] == 0 {
      assert fd !in l.wrappers;
    }
  }
}
