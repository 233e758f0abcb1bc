/** Streams to meet the client with: a compositor with one seat and one manager that answers both syncs, followed by
    whatever it sends then. */
module Greetings {
  import opened Bytes
  import opened Wire
  import opened Connections
  import opened Dispatching
  import opened Transport
  import opened Completion
  import opened Mime
  import opened Handcrafted
  import opened Compositor
  import opened SyncBarrier

  // ---- Events -------------------------------------------------------------

  function GlobalEvent(g: Global, interface: Name): Packet {
    Packet(Message(REGISTRY, 0, EncodeArgs([UInt(g.name), Str(interface), UInt(g.version)])), None)
  }

  function DoneEvent(callback: U32): Packet {
    Packet(Message(callback, 0, Le32(0)), None)
  }

  /** An event of one word, and one of one text. */
  function WordEvent(obj: U32, opcode: U16, word: U32): Packet {
    Packet(Message(obj, opcode, Le32(word)), None)
  }

  function TextEvent(obj: U32, opcode: U16, text: Name): Packet {
    Packet(Message(obj, opcode, EncodeArgs([Str(text)])), None)
  }

  lemma {:induction false} WordIsRead(obj: U32, opcode: U16, word: U32)
    ensures var m := WordEvent(obj, opcode, word).msg;
            Word(m) == word && |m.payload| == 4 && Fits(m)
  {
    hide FromLe32, Le32;
    Le32RoundTrip(word);
    assert Le32(word)[0..4] == Le32(word);
  }

  lemma {:induction false} TextIsRead(obj: U32, opcode: U16, text: Name)
    requires |text| <= MAX_TEXT
    ensures var m := TextEvent(obj, opcode, text).msg;
            Text(m) == text && |m.payload| <= |text| + 8 && Fits(m)
  {
    hide ReadStr, EncodeArg;
    var arg := Str(text);
    assert EncodeArgs([arg]) == EncodeArg(arg) + EncodeArgs([]) == EncodeArg(arg);
    EncodedArgIsAligned(arg);
    ReadStrOfEncoding(text, [], []);
    assert [] + EncodeArg(arg) + [] == EncodeArg(arg);
  }

  lemma {:induction false} GlobalAdvertised(g: Global, interface: Name)
    requires |interface| <= 100
    ensures AdvertOf(GlobalEvent(g, interface).msg) == Advert(g, interface)
    ensures |GlobalEvent(g, interface).msg.payload| <= 120
  {
    hide ReadU32, ReadStr, EncodeArg;
    var args := [UInt(g.name), Str(interface), UInt(g.version)];
    var last := args[2..];
    assert args[1..][1..] == last && last == [args[2]] && last[1..] == [];
    assert EncodeArgs(last) == EncodeArg(args[2]) + EncodeArgs(last[1..]);
    assert EncodeArgs(args[1..]) == EncodeArg(args[1]) + EncodeArgs(args[1..][1..]);
    WordLength(args[0]);
    WordLength(args[2]);
    EncodedArgIsAligned(args[1]);
    GlobalReadBack(args);
  }

  /** Reading the three arguments of an advert back is reading an advert. */
  lemma {:induction false} GlobalReadBack(args: seq<Arg>)
    requires KindsOf(args) == [UIntKind, StrKind, UIntKind] && |EncodeArgs(args)| < 0x1_0000_0000
    ensures args[0].UInt? && args[1].Str? && args[2].UInt?
    ensures AdvertOf(Message(REGISTRY, 0, EncodeArgs(args))) == Advert(Global(args[0].u, args[2].u), args[1].s)
  {
    hide ReadU32, ReadStr, EncodeArgs;
    var ks, p := KindsOf(args), EncodeArgs(args);
    ArgsRoundTrip(args, []);
    assert [] + p == p;
    assert ks[0] == KindOf(args[0]) && ks[1] == KindOf(args[1]) && ks[2] == KindOf(args[2]);
    assert ks[1..] == [StrKind, UIntKind] && ks[1..][1..] == [UIntKind] && ks[1..][1..][1..] == [];
    var c1 := ReadU32(p, 0).1;
    var c2 := ReadStr(p, c1).1;
    var got := ReadArgs(ks, p, 0).0;
    var got1 := ReadArgs(ks[1..], p, c1).0;
    var got2 := ReadArgs(ks[1..][1..], p, c2).0;
    assert got2 == [UInt(ReadU32(p, c2).0)] + ReadArgs(ks[1..][1..][1..], p, ReadU32(p, c2).1).0;
    assert got1 == [Str(ReadStr(p, c1).0)] + got2;
    assert got == [UInt(ReadU32(p, 0).0)] + got1;
  }

  // ---- The welcome --------------------------------------------------------

  function Welcome(): seq<Packet> {
    [GlobalEvent(Global(1, 1), IF_SEAT), GlobalEvent(Global(2, 2), IF_MANAGER), DoneEvent(FIRST_SYNC),
     DoneEvent(SECOND_SYNC)]
  }

  lemma {:induction false} WelcomeBarriers(rest: seq<Packet>)
    ensures BarriersOf(Welcome() + rest) == Barriers(Welcome()[..2], true, [], true, rest)
  {
    hide EncodeArgs, Ascii, Le32;
    var w := Welcome();
    var ps := w + rest;
    assert ps[1..] == [w[1], w[2], w[3]] + rest && ps[1..][1..] == [w[2], w[3]] + rest;
    assert FirstDone(ps[1..][1..], FIRST_SYNC) == 0;
    assert FirstDone(ps[1..], FIRST_SYNC) == 1;
    assert FirstDone(ps, FIRST_SYNC) == 2;
    var later := ps[3..];
    assert later == [w[3]] + rest && FirstDone(later, SECOND_SYNC) == 0;
    assert later[..0] == [] && later[1..] == rest && ps[..2] == w[..2];
  }

  lemma {:induction false} WelcomeGlobals()
    ensures GlobalsIn(Welcome()[..2], REGISTRY, IF_SEAT) == [Global(1, 1)]
    ensures GlobalsIn(Welcome()[..2], REGISTRY, IF_MANAGER) == [Global(2, 2)]
  {
    hide AdvertOf, EncodeArgs, Ascii;
    var seat, manager := GlobalEvent(Global(1, 1), IF_SEAT), GlobalEvent(Global(2, 2), IF_MANAGER);
    assert |IF_SEAT| == 7 && |IF_MANAGER| == 28;
    GlobalAdvertised(Global(1, 1), IF_SEAT);
    GlobalAdvertised(Global(2, 2), IF_MANAGER);
    assert Welcome()[..2] == [seat, manager];
    TwoGlobals(seat, manager, IF_SEAT);
    TwoGlobals(seat, manager, IF_MANAGER);
  }

  lemma {:induction false} TwoGlobals(p: Packet, q: Packet, interface: Name)
    requires p.msg.id == q.msg.id == REGISTRY && p.msg.opcode == q.msg.opcode == 0
    ensures GlobalsIn([p, q], REGISTRY, interface)
         == (if AdvertOf(p.msg).interface == interface then [AdvertOf(p.msg).global] else [])
            + (if AdvertOf(q.msg).interface == interface then [AdvertOf(q.msg).global] else [])
  {
    hide AdvertOf;
    assert [p, q][1..] == [q] && [q][1..] == [];
    assert GlobalsIn([q], REGISTRY, interface)
        == (if AdvertOf(q.msg).interface == interface then [AdvertOf(q.msg).global] else []) +
            GlobalsIn([], REGISTRY, interface);
  }

  /** Whatever follows it, the welcome lets every operation past bootstrap. */
  lemma {:induction false} WelcomeReaches(sel: Selection, rest: seq<Packet>)
    ensures Reaches([], sel, Welcome() + rest) && BootSpared(BarriersOf(Welcome() + rest))
    ensures BarriersOf(Welcome() + rest).rest == rest
  {
    hide AdvertOf, EncodeArgs, Ascii, Text, GlobalsIn, Word, BarriersOf, Le32;
    WelcomeBarriers(rest);
    WelcomeGlobals();
    assert |IF_SEAT| == 7 && |IF_MANAGER| == 28;
    assert Decimal([]) == 0;
  }

  lemma {:induction false} WelcomeFits()
    ensures forall p | p in Welcome() :: Fits(p.msg) && p.fd.None?
    ensures 1 <= |EncodePackets(Welcome())| <= 500
  {
    hide AdvertOf, EncodeArgs, EncodeMessage, Ascii;
    var ps := Welcome();
    assert |IF_SEAT| == 7 && |IF_MANAGER| == 28;
    GlobalAdvertised(Global(1, 1), IF_SEAT);
    GlobalAdvertised(Global(2, 2), IF_MANAGER);
    EncodedLength(ps[0].msg);
    EncodedLength(ps[1].msg);
    EncodedLength(ps[2].msg);
    EncodedLength(ps[3].msg);
    assert ps[1..] == [ps[1], ps[2], ps[3]] && ps[1..][1..] == [ps[2], ps[3]] && ps[1..][1..][1..] == [ps[3]] &&
           [ps[3]][1..] == [];
  }

  lemma {:induction false} NoFds(ps: seq<Packet>)
    requires forall p | p in ps :: p.fd.None?
    ensures PacketFds(ps) == []
    decreases |ps|
  {
    if ps != [] {
      assert forall p | p in ps[1..] :: p in ps;
      NoFds(ps[1..]);
    }
  }

  /** A stream without descriptors that comes in one chunk. */
  lemma {:induction false} OneChunkIsFaithful(ps: seq<Packet>)
    requires (forall p | p in ps :: Fits(p.msg) && p.fd.None?) && 1 <= |EncodePackets(ps)| <= PUMP_SIZE
    ensures var recvs := [Got(Batch(EncodePackets(ps), []))];
            Faithful(ps, Queues([], [], [], []), recvs) && Whole(ps, Queues([], [], [], []), recvs)
  {
    hide EncodePackets;
    var c: Chunk := Batch(EncodePackets(ps), []);
    var recvs := [Got(c)];
    var none: seq<Batch> := [];
    assert recvs[1..] == [] && Incoming(recvs) == [c] + none;
    BatchesCons(c, none);
    NoFds(ps);
    AllFdsAreInTime(ps, 0, 0, Incoming(recvs));
    assert [] + EncodePackets(ps) + [] == EncodePackets(ps);
  }

  lemma {:induction false} EncodePacketsConcat(a: seq<Packet>, b: seq<Packet>)
    ensures EncodePackets(a + b) == EncodePackets(a) + EncodePackets(b)
    decreases |a|
  {
    hide EncodeMessage;
    if a == [] {
      assert a + b == b;
    } else {
      assert (a + b)[1..] == a[1..] + b;
      EncodePacketsConcat(a[1..], b);
      Assoc(EncodeMessage(a[0].msg), EncodePackets(a[1..]), EncodePackets(b));
    }
  }

  /** The welcome and a short rest, in one chunk. */
  function Greeting(rest: seq<Packet>): seq<RecvAnswer>
    requires 1 <= |EncodePackets(Welcome() + rest)| <= PUMP_SIZE
  {
    [Got(Batch(EncodePackets(Welcome() + rest), []))]
  }

  lemma {:induction false} GreetingIsFaithful(rest: seq<Packet>)
    requires (forall p | p in rest :: Fits(p.msg) && p.fd.None?) && |EncodePackets(rest)| <= 3000
    ensures 1 <= |EncodePackets(Welcome() + rest)| <= PUMP_SIZE
    ensures Faithful(Welcome() + rest, Queues([], [], [], []), Greeting(rest))
    ensures Whole(Welcome() + rest, Queues([], [], [], []), Greeting(rest))
    ensures forall p | p in Welcome() + rest :: p.fd.None?
  {
    hide EncodePackets, Faithful, Whole, Welcome, Fits;
    WelcomeFits();
    EncodePacketsConcat(Welcome(), rest);
    OneChunkIsFaithful(Welcome() + rest);
  }
}
