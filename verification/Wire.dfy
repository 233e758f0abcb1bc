/** Message framing and argument marshalling (src/wire/wire.cpp, Writer / Reader / peek_message_size). */
module Wire {
  import opened Bytes

  const HEADER_SIZE: nat := 8
  const DISPLAY_ID: U32 := 1
  const CLIENT_ID_MIN: U32 := 2
  const SERVER_ID_MIN: U32 := 0xFF00_0000

  /** The first total the 16-bit length field cannot hold. */
  const MAX_MESSAGE: nat := 0x1_0000

  datatype Message = Message(id: U32, opcode: U16, payload: seq<Byte>)

  datatype Arg = UInt(u: U32) | SInt(i: I32) | Str(s: seq<Byte>)

  datatype ArgKind = UIntKind | SIntKind | StrKind

  datatype Request = Request(id: U32, opcode: U16, args: seq<Arg>)

  function Pad4(n: nat): (r: nat)
    ensures r % 4 == 0 && n <= r < n + 4
  {
    (n + 3) / 4 * 4
  }

  // ---- Encoding -----------------------------------------------------------

  function EncodeArg(a: Arg): seq<Byte> {
    match a
    case UInt(u) => Le32(u)
    case SInt(i) => Le32(AsU32(i))
    case Str(s) => Le32((|s| + 1) % 0x1_0000_0000) + s + Zeros(Pad4(|s| + 1) - |s|)
  }

  function EncodeArgs(args: seq<Arg>): seq<Byte> {
    if args == [] then [] else EncodeArg(args[0]) + EncodeArgs(args[1..])
  }

  /** The second header word: the length, cut to its low 16 bits by the shift, above the opcode. */
  function OpLen(opcode: U16, total: nat): U32 {
    opcode + total % 0x1_0000 * 0x1_0000
  }

  function EncodeMessage(m: Message): seq<Byte> {
    Le32(m.id) + Le32(OpLen(m.opcode, HEADER_SIZE + |m.payload|)) + m.payload
  }

  function MessageOf(r: Request): Message {
    Message(r.id, r.opcode, EncodeArgs(r.args))
  }

  function MessagesOf(rs: seq<Request>): (ms: seq<Message>)
    ensures |ms| == |rs|
    ensures forall i | 0 <= i < |rs| :: ms[i] == MessageOf(rs[i])
  {
    seq(|rs|, i requires 0 <= i < |rs| => MessageOf(rs[i]))
  }

  function EncodeAll(ms: seq<Message>): seq<Byte> {
    if ms == [] then [] else EncodeMessage(ms[0]) + EncodeAll(ms[1..])
  }

  function EncodeRequests(rs: seq<Request>): seq<Byte> {
    EncodeAll(MessagesOf(rs))
  }

  /** The length field can carry the message's length. */
  predicate Fits(m: Message) {
    HEADER_SIZE + |m.payload| < MAX_MESSAGE
  }

  // ---- Decoding -----------------------------------------------------------

  /** Total size of the message at the front of buf, 0 when none is complete. */
  function PeekMessageSize(buf: seq<Byte>): (n: nat)
    ensures n != 0 ==> HEADER_SIZE <= n <= |buf| && n < MAX_MESSAGE
  {
    if |buf| < HEADER_SIZE then 0
    else
      var total := FromLe32(buf[4..8]) / 0x1_0000;
      if total < HEADER_SIZE || |buf| < total then 0 else total
  }

  function DecodeMessage(b: seq<Byte>): Message
    requires |b| >= HEADER_SIZE
  {
    Message(FromLe32(b[..4]), FromLe32(b[4..8]) % 0x1_0000, b[8..])
  }

  /** One-shot parse of a byte stream: all complete messages, and what is left over. */
  function ParseAll(buf: seq<Byte>): (seq<Message>, seq<Byte>)
    decreases |buf|
  {
    var n := PeekMessageSize(buf);
    if n == 0 then ([], buf)
    else
      var tail := ParseAll(buf[n..]);
      ([DecodeMessage(buf[..n])] + tail.0, tail.1)
  }

  /** Reader::u32 at cursor cur: the value (0 on underrun) and the new cursor. */
  function ReadU32(p: seq<Byte>, cur: nat): (U32, nat) {
    if cur + 4 > |p| then (0, cur) else (FromLe32(p[cur..cur + 4]), cur + 4)
  }

  /** Reader::str at cursor cur: the bytes before the NUL ([] on a bad length) and the new cursor. */
  function ReadStr(p: seq<Byte>, cur: nat): (seq<Byte>, nat) {
    var (len, c) := ReadU32(p, cur);
    if len == 0 || c + Pad4(len) > |p| then ([], c) else (p[c..c + len - 1], c + Pad4(len))
  }

  function ReadArg(k: ArgKind, p: seq<Byte>, cur: nat): (Arg, nat) {
    match k
    case UIntKind => var (v, c) := ReadU32(p, cur); (UInt(v), c)
    case SIntKind => var (v, c) := ReadU32(p, cur); (SInt(AsI32(v)), c)
    case StrKind => var (v, c) := ReadStr(p, cur); (Str(v), c)
  }

  function ReadArgs(ks: seq<ArgKind>, p: seq<Byte>, cur: nat): (seq<Arg>, nat) {
    if ks == [] then ([], cur)
    else
      var (a, c) := ReadArg(ks[0], p, cur);
      var (rest, end) := ReadArgs(ks[1..], p, c);
      ([a] + rest, end)
  }

  function KindOf(a: Arg): ArgKind {
    match a
    case UInt(_) => UIntKind
    case SInt(_) => SIntKind
    case Str(_) => StrKind
  }

  function KindsOf(args: seq<Arg>): (ks: seq<ArgKind>)
    ensures |ks| == |args|
    ensures forall i | 0 <= i < |args| :: ks[i] == KindOf(args[i])
  {
    seq(|args|, i requires 0 <= i < |args| => KindOf(args[i]))
  }

  // ---- Codec round trips --------------------------------------------------

  /** Every argument is encoded in whole words, so a writer's buffer stays aligned. */
  lemma {:induction false} EncodedArgIsAligned(a: Arg)
    ensures |EncodeArg(a)| % 4 == 0
    ensures a.Str? ==> |EncodeArg(a)| == 4 + Pad4(|a.s| + 1)
  {
    hide Le32, Pad4;
  }

  lemma {:induction false} EncodedArgsAreAligned(args: seq<Arg>)
    ensures |EncodeArgs(args)| % 4 == 0
  {
    hide EncodeArg;
    if args != [] {
      EncodedArgIsAligned(args[0]);
      EncodedArgsAreAligned(args[1..]);
    }
  }

  lemma {:induction false} ReadArgOfEncoding(a: Arg, before: seq<Byte>, after: seq<Byte>)
    requires |EncodeArg(a)| < 0x1_0000_0000
    ensures ReadArg(KindOf(a), before + EncodeArg(a) + after, |before|) == (a, |before| + |EncodeArg(a)|)
  {
    hide Le32, FromLe32, Pad4;
    match a
    case UInt(u) => ReadWordOfEncoding(u, before, after);
    case SInt(i) => ReadWordOfEncoding(AsU32(i), before, after);
    case Str(s) => ReadStrOfEncoding(s, before, after);
  }

  lemma {:induction false} ReadWordOfEncoding(u: U32, before: seq<Byte>, after: seq<Byte>)
    ensures ReadU32(before + Le32(u) + after, |before|) == (u, |before| + 4)
  {
    hide Le32, FromLe32;
    Le32RoundTrip(u);
    assert (before + Le32(u) + after)[|before|..|before| + 4] == Le32(u);
  }

  lemma {:induction false} ReadStrOfEncoding(s: seq<Byte>, before: seq<Byte>, after: seq<Byte>)
    requires |EncodeArg(Str(s))| < 0x1_0000_0000
    ensures ReadStr(before + EncodeArg(Str(s)) + after, |before|) == (s, |before| + |EncodeArg(Str(s))|)
  {
    hide Le32, ReadU32, Pad4;
    EncodedArgIsAligned(Str(s));
    var len := |s| + 1;
    var body := s + Zeros(Pad4(len) - |s|);
    var p := before + EncodeArg(Str(s)) + after;
    assert EncodeArg(Str(s)) == Le32(len) + body;
    assert p == before + Le32(len) + (body + after);
    ReadWordOfEncoding(len, before, body + after);
    assert p[|before| + 4..|before| + 4 + |s|] == s;
  }

  /** Reading back the kinds that were written gives the same arguments and ends at the end of the payload. */
  lemma {:induction false} ArgsRoundTrip(args: seq<Arg>, before: seq<Byte>)
    requires |EncodeArgs(args)| < 0x1_0000_0000
    ensures ReadArgs(KindsOf(args), before + EncodeArgs(args), |before|)
         == (args, |before + EncodeArgs(args)|)
  {
    hide EncodeArg, ReadArg;
    if args == [] {
      assert before + EncodeArgs(args) == before;
    } else {
      var e := EncodeArg(args[0]);
      var rest := EncodeArgs(args[1..]);
      assert before + EncodeArgs(args) == before + e + rest;
      assert KindsOf(args)[1..] == KindsOf(args[1..]);
      ReadArgOfEncoding(args[0], before, rest);
      ArgsRoundTrip(args[1..], before + e);
      assert [args[0]] + args[1..] == args;
    }
  }

  /** On every input whatever, the cursor never leaves the payload. */
  lemma {:induction false} CursorStaysInPayload(ks: seq<ArgKind>, p: seq<Byte>, cur: nat)
    requires cur <= |p|
    ensures cur <= ReadArgs(ks, p, cur).1 <= |p|
    ensures |ReadArgs(ks, p, cur).0| == |ks|
  {
    hide FromLe32, Pad4, AsI32;
    if ks != [] {
      CursorStaysInPayload(ks[1..], p, ReadArg(ks[0], p, cur).1);
    }
  }

  lemma {:induction false} PeekOfHeader(m: Message, rest: seq<Byte>)
    ensures var total := HEADER_SIZE + |m.payload|;
            var claimed := total % 0x1_0000;
            PeekMessageSize(EncodeMessage(m) + rest)
            == if claimed < HEADER_SIZE || claimed > total + |rest| then 0 else claimed
  {
    hide Le32, FromLe32;
    var total := HEADER_SIZE + |m.payload|;
    var buf := EncodeMessage(m) + rest;
    assert buf[4..8] == Le32(OpLen(m.opcode, total));
    Le32RoundTrip(OpLen(m.opcode, total));
  }

  /** A message is found again at the front of a stream exactly when it has fewer than 65536 bytes. */
  lemma {:induction false} FramesIffFits(m: Message, rest: seq<Byte>)
    ensures PeekMessageSize(EncodeMessage(m) + rest) == |EncodeMessage(m)| <==> Fits(m)
  {
    hide EncodeMessage, PeekMessageSize;
    EncodedLength(m);
    PeekOfHeader(m, rest);
  }

  /** What is where: the object's id in bytes 0 to 3, the opcode in 4 and 5, the total in 6 and 7 as far as 16 bits
      hold it, each with its low byte first, and then the payload. */
  lemma {:induction false} MessageLayout(m: Message)
    ensures var b := EncodeMessage(m);
            var w: seq<int> := seq(8, i requires 0 <= i < 8 => b[i] as int);
            && m.id == w[0] + 0x100 * w[1] + 0x1_0000 * w[2] + 0x100_0000 * w[3]
            && m.opcode == w[4] + 0x100 * w[5]
            && (8 + |m.payload|) % 0x1_0000 == w[6] + 0x100 * w[7]
            && b[8..] == m.payload
  {
    hide Le32;
    var total := HEADER_SIZE + |m.payload|;
    var b := EncodeMessage(m);
    Le32IsLittleEndian(m.id);
    Le32IsLittleEndian(OpLen(m.opcode, total));
    assert b[..4] == Le32(m.id) && b[4..8] == Le32(OpLen(m.opcode, total));
    forall i | 0 <= i < 4 ensures b[i] == Le32(m.id)[i] && b[4 + i] == Le32(OpLen(m.opcode, total))[i] {
      assert b[i] == b[..4][i] && b[4 + i] == b[4..8][i];
    }
  }

  /** A string argument: its length with the terminator, the text, and zero bytes, at least one, to the next multiple of
      four. */
  lemma {:induction false} StringLayout(s: seq<Byte>)
    requires |s| + 1 < 0x1_0000_0000
    ensures var b := EncodeArg(Str(s));
            && |b| % 4 == 0 && 4 + |s| < |b| <= 4 + |s| + 4
            && b[..4] == Le32(|s| + 1) && b[4..4 + |s|] == s && forall i | 4 + |s| <= i < |b| :: b[i] == 0
  {
    hide Le32;
    EncodedArgIsAligned(Str(s));
  }

  lemma {:induction false} EncodedLength(m: Message)
    ensures |EncodeMessage(m)| == HEADER_SIZE + |m.payload|
  {
    hide Le32;
  }

  lemma {:induction false} DecodeOfEncoding(m: Message)
    ensures DecodeMessage(EncodeMessage(m)) == m
  {
    hide Le32, FromLe32;
    var total := HEADER_SIZE + |m.payload|;
    var b := EncodeMessage(m);
    assert b[..4] == Le32(m.id);
    assert b[4..8] == Le32(OpLen(m.opcode, total));
    Le32RoundTrip(m.id);
    Le32RoundTrip(OpLen(m.opcode, total));
    assert b[8..] == m.payload;
  }

  /** The front of a stream that starts with an encoded message decodes to that message. */
  lemma {:induction false} FrontMessage(m: Message, rest: seq<Byte>)
    requires Fits(m)
    ensures var n := PeekMessageSize(EncodeMessage(m) + rest);
            && n == |EncodeMessage(m)|
            && DecodeMessage((EncodeMessage(m) + rest)[..n]) == m
            && (EncodeMessage(m) + rest)[n..] == rest
  {
    hide EncodeMessage, PeekMessageSize, DecodeMessage;
    FramesIffFits(m, rest);
    EncodedLength(m);
    DecodeOfEncoding(m);
    assert (EncodeMessage(m) + rest)[..|EncodeMessage(m)|] == EncodeMessage(m);
  }

  /** Parsing a stream of encoded messages returns those messages and the unfinished tail. */
  lemma {:induction false} ParseAllOfEncodeAll(ms: seq<Message>, tail: seq<Byte>)
    requires forall m | m in ms :: Fits(m)
    requires PeekMessageSize(tail) == 0
    ensures ParseAll(EncodeAll(ms) + tail) == (ms, tail)
  {
    hide EncodeMessage, PeekMessageSize, DecodeMessage;
    if ms == [] {
      assert EncodeAll(ms) + tail == tail;
    } else {
      var rest := EncodeAll(ms[1..]) + tail;
      assert EncodeAll(ms) + tail == EncodeMessage(ms[0]) + rest;
      FrontMessage(ms[0], rest);
      ParseAllOfEncodeAll(ms[1..], tail);
      EncodedLength(ms[0]);
      assert [ms[0]] + ms[1..] == ms;
    }
  }

  /** A request with one string argument frames correctly exactly up to 65519 bytes of text. */
  lemma {:induction false} StringRequestFrames(id: U32, opcode: U16, s: seq<Byte>)
    ensures var b := EncodeMessage(MessageOf(Request(id, opcode, [Str(s)])));
            PeekMessageSize(b) == |b| <==> |s| <= 65519
  {
    hide EncodeMessage, PeekMessageSize, EncodeArg;
    var r := Request(id, opcode, [Str(s)]);
    var m := MessageOf(r);
    assert EncodeArgs(r.args) == EncodeArg(Str(s)) + EncodeArgs([]);
    EncodedArgIsAligned(Str(s));
    FramesIffFits(m, []);
    assert EncodeMessage(m) + [] == EncodeMessage(m);
  }

  lemma {:induction false} EncodeAllConcat(a: seq<Message>, b: seq<Message>)
    ensures EncodeAll(a + b) == EncodeAll(a) + EncodeAll(b)
  {
    hide EncodeMessage;
    if a == [] {
      assert a + b == b;
    } else {
      EncodeAllConcat(a[1..], b);
      Assoc(EncodeMessage(a[0]), EncodeAll(a[1..]), EncodeAll(b));
      assert (a + b)[1..] == a[1..] + b;
    }
  }

  lemma {:induction false} EncodeRequestsConcat(a: seq<Request>, b: seq<Request>)
    ensures EncodeRequests(a + b) == EncodeRequests(a) + EncodeRequests(b)
  {
    hide EncodeMessage, MessageOf;
    assert MessagesOf(a + b) == MessagesOf(a) + MessagesOf(b);
    EncodeAllConcat(MessagesOf(a), MessagesOf(b));
  }

  lemma {:induction false} EncodeOneRequest(r: Request)
    ensures EncodeRequests([r]) == EncodeMessage(MessageOf(r))
  {
    hide EncodeMessage, MessageOf;
    assert MessagesOf([r]) == [MessageOf(r)];
    assert EncodeAll([MessageOf(r)]) == EncodeMessage(MessageOf(r)) + EncodeAll([]);
  }

  // ---- Writer and Reader --------------------------------------------------

  /** Assembles one message in place. */
  class Writer {
    var buf: seq<Byte>
    ghost const request: U32
    ghost const opcode: U16
    ghost var args: seq<Arg>

    /** buf is the unfinished message: a header whose length field is still 0, then the arguments so far. */
    ghost predicate Valid()
      reads this
    {
      buf == Le32(request) + Le32(opcode) + EncodeArgs(args)
    }

    constructor (objectId: U32, op: U16)
      ensures Valid() && request == objectId && opcode == op && args == []
    {
      request, opcode, args := objectId, op, [];
      buf := Le32(objectId) + Le32(op);
    }

    method U32(v: U32)
      requires Valid()
      modifies this
      ensures Valid() && args == old(args) + [UInt(v)]
    {
      AppendArg(args, UInt(v));
      buf := buf + Le32(v);
      args := args + [UInt(v)];
    }

    method I32(v: I32)
      requires Valid()
      modifies this
      ensures Valid() && args == old(args) + [SInt(v)]
    {
      AppendArg(args, SInt(v));
      buf := buf + Le32(AsU32(v));
      args := args + [SInt(v)];
    }

    /** Pads by the alignment of the whole buffer; the reader pads by the string's length. The results agree. */
    method Str(s: seq<Byte>)
      requires Valid()
      modifies this
      ensures Valid() && args == old(args) + [Arg.Str(s)]
    {
      hide Le32, EncodeArgs, EncodeArg;
      ValidIsAligned();
      ghost var was := buf;
      buf := buf + Le32((|s| + 1) % 0x1_0000_0000) + s + [0];
      AlignedPadding(|was|, |s| + 1);
      Align();
      StrAppended(was, s, buf);
      args := args + [Arg.Str(s)];
    }

    /** Appends zero bytes up to the next multiple of four. */
    method Align()
      modifies this`buf
      ensures buf == old(buf) + Zeros(Pad4(|old(buf)|) - |old(buf)|)
    {
      hide Pad4;
      ghost var was := buf;
      ghost var pad: nat := Pad4(|was|) - |was|;
      ghost var n: nat := 0;
      while |buf| % 4 != 0
        invariant n <= pad && |buf| == |was| + n
        invariant buf == was + Zeros(n)
        decreases pad - n
      {
        buf := buf + [0];
        n := n + 1;
      }
      assert n == pad;
    }

    lemma {:induction false} ValidIsAligned()
      requires Valid()
      ensures |buf| % 4 == 0
    {
      hide EncodeArgs;
      EncodedArgsAreAligned(args);
    }

    lemma {:induction false} StrAppended(was: seq<Byte>, s: seq<Byte>, now: seq<Byte>)
      requires was == Le32(request) + Le32(opcode) + EncodeArgs(args)
      requires now == was + Le32((|s| + 1) % 0x1_0000_0000) + s + [0] + Zeros(Pad4(|s| + 1) - (|s| + 1))
      ensures now == Le32(request) + Le32(opcode) + EncodeArgs(args + [Arg.Str(s)])
    {
      hide Le32, EncodeArgs, Pad4;
      AppendArg(args, Arg.Str(s));
      assert now == was + EncodeArg(Arg.Str(s));
      Assoc(Le32(request) + Le32(opcode), EncodeArgs(args), EncodeArg(Arg.Str(s)));
    }

    /** Patches the total length into the header and moves the bytes out. */
    method Finalize() returns (bytes: seq<Byte>)
      requires Valid()
      modifies this`buf
      ensures bytes == EncodeMessage(MessageOf(Request(request, opcode, args)))
      ensures buf == []
    {
      hide Le32, FromLe32, EncodeArgs;
      var total := |buf| % 0x1_0000_0000;
      var opLen := FromLe32(buf[4..8]);
      PatchedLength(opcode, |buf|);
      assert buf[4..8] == Le32(opcode);
      opLen := opLen % 0x1_0000 + total * 0x1_0000 % 0x1_0000_0000;
      bytes := buf[..4] + Le32(opLen) + buf[8..];
      assert buf[..4] == Le32(request);
      assert buf[8..] == EncodeArgs(args);
      buf := [];
    }
  }

  /** Shifting the 32-bit total by 16 keeps its low half above the opcode. */
  lemma {:induction false} PatchedLength(opcode: U16, size: nat)
    ensures FromLe32(Le32(opcode)) % 0x1_0000 + size % 0x1_0000_0000 * 0x1_0000 % 0x1_0000_0000 == OpLen(opcode, size)
  {
    hide Le32, FromLe32;
    Le32RoundTrip(opcode);
    var high := size / 0x1_0000_0000;
    var total := size % 0x1_0000_0000;
    assert size == high * 0x1_0000_0000 + total;
    assert size % 0x1_0000 == total % 0x1_0000;
    var upper := total / 0x1_0000;
    assert total * 0x1_0000 == upper * 0x1_0000_0000 + total % 0x1_0000 * 0x1_0000;
  }

  /** Aligning the whole buffer after n bytes pads as much as the reader's pad4(n) skips. */
  lemma {:induction false} AlignedPadding(start: nat, n: nat)
    requires start % 4 == 0
    ensures Pad4(start + 4 + n) - (start + 4 + n) == Pad4(n) - n
  {
  }

  lemma {:induction false} AppendArg(args: seq<Arg>, a: Arg)
    ensures EncodeArgs(args + [a]) == EncodeArgs(args) + EncodeArg(a)
  {
    hide EncodeArg;
    if args == [] {
      assert args + [a] == [a];
      assert EncodeArgs([a]) == EncodeArg(a) + EncodeArgs([]);
    } else {
      AppendArg(args[1..], a);
      assert (args + [a])[1..] == args[1..] + [a];
    }
  }

  lemma {:induction false} WordOfBytes(b: seq<Byte>)
    requires |b| == 4
    ensures Le32(FromLe32(b)) == b
  {
    hide Le32;
    var v := FromLe32(b);
    Le32IsLittleEndian(v);
    var c := Le32(v);
    var b0: int, b1: int, b2: int, b3: int := b[0], b[1], b[2], b[3];
    var c0: int, c1: int, c2: int, c3: int := c[0], c[1], c[2], c[3];
    SameDigits(b0, b1 + 0x100 * b2 + 0x1_0000 * b3, c0, c1 + 0x100 * c2 + 0x1_0000 * c3);
    SameDigits(b1, b2 + 0x100 * b3, c1, c2 + 0x100 * c3);
    SameDigits(b2, b3, c2, c3);
  }

  lemma {:induction false} SameDigits(x: Byte, high: nat, y: Byte, high': nat)
    requires x + 0x100 * high == y + 0x100 * high'
    ensures x == y && high == high'
  {
    assert 0x100 * (high - high') == y - x;
  }

  /** Typed reads from one payload, advancing a cursor. */
  class Reader {
    const payload: seq<Byte>
    var cur: nat

    constructor (payload: seq<Byte>)
      ensures this.payload == payload && cur == 0
    {
      this.payload := payload;
      cur := 0;
    }

    ghost predicate Valid()
      reads this
    {
      cur <= |payload|
    }

    predicate Eof()
      reads this
    {
      cur >= |payload|
    }

    method U32() returns (v: U32)
      requires Valid()
      modifies this
      ensures Valid() && (v, cur) == ReadU32(payload, old(cur))
      ensures if |payload| - old(cur) < 4 then v == 0 && cur == old(cur)
              else Le32(v) == payload[old(cur)..cur] && cur == old(cur) + 4
    {
      if cur + 4 > |payload| {
        return 0;
      }
      v := FromLe32(payload[cur..cur + 4]);
      WordOfBytes(payload[cur..cur + 4]);
      cur := cur + 4;
    }

    method I32() returns (v: I32)
      requires Valid()
      modifies this
      ensures Valid() && (SInt(v), cur) == ReadArg(SIntKind, payload, old(cur))
    {
      var u := U32();
      v := AsI32(u);
    }

    method Str() returns (s: seq<Byte>)
      requires Valid()
      modifies this
      ensures Valid() && (s, cur) == ReadStr(payload, old(cur))
      ensures |payload| - old(cur) < 4 ==> s == [] && cur == old(cur)
      ensures |payload| - old(cur) >= 4 ==>
                var text := old(cur) + 4;
                var len := FromLe32(payload[old(cur)..text]);
                if len == 0 || |payload| - text < Pad4(len) then s == [] && cur == text
                else s == payload[text..text + len - 1] && cur == text + Pad4(len)
    {
      hide FromLe32, Le32, Pad4;
      var len := U32();
      if len == 0 || cur + Pad4(len) > |payload| {
        return [];
      }
      s := payload[cur..cur + len - 1];
      cur := cur + Pad4(len);
    }
  }

  method ReadOne(r: Reader, k: ArgKind) returns (a: Arg)
    requires r.Valid()
    modifies r
    ensures r.Valid() && (a, r.cur) == ReadArg(k, r.payload, old(r.cur))
  {
    hide FromLe32, Pad4, AsI32;
    match k {
      case UIntKind => var v := r.U32(); a := UInt(v);
      case SIntKind => var v := r.I32(); a := SInt(v);
      case StrKind => var v := r.Str(); a := Str(v);
    }
  }

  /** A reader run over a writer's payload returns the written arguments and is then at eof. */
  method ReadBack(args: seq<Arg>) returns (got: seq<Arg>, eof: bool)
    requires |EncodeArgs(args)| < 0x1_0000_0000
    ensures got == args && eof
  {
    hide EncodeArgs, ReadArg, KindsOf;
    var r := new Reader(EncodeArgs(args));
    got := [];
    var ks := KindsOf(args);
    ArgsRoundTrip(args, []);
    assert [] + EncodeArgs(args) == EncodeArgs(args);
    for i := 0 to |ks|
      invariant r.Valid() && r.payload == EncodeArgs(args)
      invariant |got| == i && got == args[..i]
      invariant ReadArgs(ks[i..], r.payload, r.cur) == (args[i..], |r.payload|)
    {
      var a := ReadOne(r, ks[i]);
      assert ks[i..][1..] == ks[i + 1..];
      assert args[i..][1..] == args[i + 1..];
      got := got + [a];
    }
    eof := r.Eof();
  }
}
