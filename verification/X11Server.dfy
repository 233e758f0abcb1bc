/** The part of the X server both sides of a selection transfer rely on: interned atoms, window properties,
    and GetProperty; and the requestor's loop around GetProperty (src/clipboard/x11.cpp, read_property). */
module X11Server {
  import opened Bytes
  import opened Mime

  type Atom = U32

  const NONE: Atom := 0
  const XA_PRIMARY: Atom := 1
  const XA_ATOM: Atom := 4
  const XA_INTEGER: Atom := 19
  const XA_STRING: Atom := 31

  // ---- Atoms --------------------------------------------------------------

  /** Both directions of the server's table. */
  datatype AtomTable = AtomTable(atoms: map<Name, Atom>, names: map<Atom, Name>)

  /** The two maps are inverse, no name has the atom None or more bytes than a request can carry, and the predefined
      names keep their numbers. */
  ghost predicate TableOk(t: AtomTable) {
    && (forall n | n in t.atoms :: t.atoms[n] != NONE && t.atoms[n] in t.names && t.names[t.atoms[n]] == n)
    && (forall a | a in t.names :: t.names[a] in t.atoms && t.atoms[t.names[a]] == a)
    && (forall n | n in t.atoms :: |n| < 0x1_0000)
    && Named(t, STRING, XA_STRING) && Named(t, ATOM, XA_ATOM) && Named(t, PRIMARY, XA_PRIMARY)
  }

  predicate Named(t: AtomTable, name: Name, a: Atom) {
    name in t.atoms && t.atoms[name] == a
  }

  /** GetAtomName; [] for the atom None or an unknown one. */
  function AtomName(t: AtomTable, a: Atom): Name {
    if a != NONE && a in t.names then t.names[a] else []
  }

  /** The name an InternAtom request really carries: its length field has 16 bits. */
  function Carried(name: Name): (c: Name)
    ensures c <= name && |c| < 0x1_0000 && exists k: nat :: |c| + k * 0x1_0000 == |name|
    ensures |name| < 0x1_0000 ==> c == name
  {
    var k := |name| / 0x1_0000;
    assert |name| % 0x1_0000 + k * 0x1_0000 == |name|;
    name[..|name| % 0x1_0000]
  }

  /** The server only learns: what was known keeps its atom. */
  ghost predicate Grew(t: AtomTable, t': AtomTable) {
    forall n | n in t.atoms :: Named(t', n, t.atoms[n])
  }

  function Lookup(t: AtomTable, name: Name): Atom {
    if name in t.atoms then t.atoms[name] else NONE
  }

  /** The server's table in place. */
  class Interner {
    var table: AtomTable
    var last: Atom

    ghost predicate Valid()
      reads this
    {
      TableOk(table) && forall a | a in table.names :: a <= last
    }

    /** A fresh server knows the predefined atoms; 68 is the last of them. */
    constructor ()
      ensures Valid() && last == 68
    {
      assert |STRING| == 6 && |PRIMARY| == 7 && |ATOM| == 4;
      table := AtomTable(map[STRING := XA_STRING, ATOM := XA_ATOM, PRIMARY := XA_PRIMARY],
                         map[XA_STRING := STRING, XA_ATOM := ATOM, XA_PRIMARY := PRIMARY]);
      last := 68;
    }

    /** InternAtom: a known name keeps its atom, a new one gets the next number, and None is answered exactly when
        a new name finds the numbers used up. */
    method Intern(name: Name) returns (a: Atom)
      requires Valid()
      modifies this
      ensures Valid() && Grew(old(table), table)
      ensures a == Lookup(table, Carried(name))
      ensures a == NONE <==> Carried(name) !in old(table.atoms) && old(last) == 0xFFFF_FFFF
      ensures if Carried(name) in old(table.atoms) || old(last) == 0xFFFF_FFFF then
                table == old(table) && last == old(last)
              else
                last == old(last) + 1 && table.atoms.Keys == old(table.atoms.Keys) + {Carried(name)}
    {
      var n := Carried(name);
      if n in table.atoms {
        return table.atoms[n];
      }
      if last == 0xFFFF_FFFF {
        return NONE;
      }
      last := last + 1;
      a := last;
      table := AtomTable(table.atoms[n := a], table.names[a := n]);
    }
  }

  /** The client's cache of the atoms it needs (load_atoms). */
  datatype Atoms = Atoms(
    clipboard: Atom, primary: Atom, targets: Atom, timestamp: Atom, multiple: Atom, incr: Atom,
    utf8String: Atom, stringAtom: Atom, text: Atom, wlSelection: Atom)

  const PRIMARY: Name := Ascii("PRIMARY")
  const ATOM: Name := Ascii("ATOM")
  const TARGETS: Name := Ascii("TARGETS")
  const TIMESTAMP: Name := Ascii("TIMESTAMP")
  const MULTIPLE: Name := Ascii("MULTIPLE")
  const INCR: Name := Ascii("INCR")
  const CLIPBOARD: Name := Ascii("CLIPBOARD")
  const WL_SELECTION: Name := Ascii("WLCLIP_SELECTION")
  const NET_WM_NAME: Name := Ascii("_NET_WM_NAME")

  ghost predicate Loaded(t: AtomTable, a: Atoms) {
    && Named(t, CLIPBOARD, a.clipboard) && a.primary == XA_PRIMARY
    && Named(t, TARGETS, a.targets) && Named(t, TIMESTAMP, a.timestamp) && Named(t, MULTIPLE, a.multiple)
    && Named(t, INCR, a.incr) && Named(t, UTF8_STRING, a.utf8String) && a.stringAtom == XA_STRING
    && Named(t, TEXT, a.text) && Named(t, WL_SELECTION, a.wlSelection)
  }

  /** Each cached atom is what the server knows for its name, None if it knows none. */
  ghost predicate Cached(t: AtomTable, a: Atoms) {
    && a.clipboard == Lookup(t, Ascii("CLIPBOARD")) && a.primary == 1 && a.stringAtom == 31
    && a.targets == Lookup(t, Ascii("TARGETS")) && a.timestamp == Lookup(t, Ascii("TIMESTAMP"))
    && a.multiple == Lookup(t, Ascii("MULTIPLE")) && a.incr == Lookup(t, Ascii("INCR"))
    && a.utf8String == Lookup(t, Ascii("UTF8_STRING")) && a.text == Lookup(t, Ascii("TEXT"))
    && a.wlSelection == Lookup(t, Ascii("WLCLIP_SELECTION"))
  }

  /** The names load_atoms asks for, in its order. */
  function CacheNames(): seq<Name> {
    [CLIPBOARD, TARGETS, TIMESTAMP, MULTIPLE, INCR, UTF8_STRING, TEXT, WL_SELECTION, NET_WM_NAME]
  }

  /** load_atoms. A name is left without an atom only if the server's numbers are used up. */
  method LoadAtoms(server: Interner) returns (a: Atoms)
    requires server.Valid()
    modifies server
    ensures server.Valid() && Grew(old(server.table), server.table)
    ensures Cached(server.table, a)
    ensures Loaded(server.table, a) || server.last == 0xFFFF_FFFF
    ensures old(server.last) + 9 <= 0xFFFF_FFFF ==> Loaded(server.table, a) && server.last <= old(server.last) + 9
  {
    hide Ascii, TableOk;
    var names, replies := CacheNames(), [];
    for i := 0 to |names|
      invariant server.Valid() && Grew(old(server.table), server.table)
      invariant |replies| == i && server.last <= old(server.last) + i
      invariant forall j | 0 <= j < i :: replies[j] == Lookup(server.table, names[j])
      invariant forall j | 0 <= j < i :: names[j] in server.table.atoms || server.last == 0xFFFF_FFFF
      invariant old(server.last) + 9 <= 0xFFFF_FFFF ==> forall j | 0 <= j < i :: names[j] in server.table.atoms
    {
      assert Carried(names[i]) == names[i] by { ShortNames(i); }
      var reply := server.Intern(names[i]);
      replies := replies + [reply];
    }
    a := Atoms(replies[0], XA_PRIMARY, replies[1], replies[2], replies[3], replies[4], replies[5], XA_STRING,
               replies[6], replies[7]);
    assert forall j | 0 <= j < 9 :: names[j] in server.table.atoms ==> Named(server.table, names[j], replies[j]);
  }

  lemma {:induction false} ShortNames(i: nat)
    requires i < 9
    ensures Carried(CacheNames()[i]) == CacheNames()[i]
  {
    var n := CacheNames()[i];
    assert |n| < 100;
    assert n[..|n|] == n;
  }

  lemma {:induction false} SameNameIffSameAtom(t: AtomTable, n: Name, a: Atom, n': Name, a': Atom)
    requires TableOk(t) && Named(t, n, a) && Named(t, n', a')
    ensures a == a' <==> n == n'
    ensures a != NONE && AtomName(t, a) == n
  {
  }

  /** The names the client tells apart by their atoms are pairwise different, and the X names are not MIME-like. */
  lemma {:induction false} NamesDiffer()
    ensures TARGETS != TIMESTAMP && TARGETS != MULTIPLE && TARGETS != INCR && TARGETS != UTF8_STRING &&
            TARGETS != STRING && TARGETS != TEXT
    ensures TIMESTAMP != MULTIPLE && TIMESTAMP != UTF8_STRING && TIMESTAMP != STRING && TIMESTAMP != TEXT
    ensures MULTIPLE != UTF8_STRING && MULTIPLE != STRING && MULTIPLE != TEXT
    ensures UTF8_STRING != STRING && UTF8_STRING != TEXT && STRING != TEXT
    ensures INCR != UTF8_STRING && INCR != STRING && INCR != TEXT && INCR != ATOM
  {
    assert |TARGETS| == 7 && |TIMESTAMP| == 9 && |MULTIPLE| == 8 && |INCR| == 4 && |UTF8_STRING| == 11 &&
           |STRING| == 6 && |TEXT| == 4;
    assert INCR[0] == 0x49 && TEXT[0] == 0x54 && ATOM[0] == 0x41;
  }

  // ---- Properties ---------------------------------------------------------

  /** A stored value. Its size is a 32-bit count of 8-, 16- or 32-bit units. */
  datatype PropertyValue = PropertyValue(kind: Atom, format: nat, value: seq<Byte>)
  type Property = p: PropertyValue | |p.value| < 0x4_0000_0000 witness PropertyValue(0, 8, [])

  /** `bytesAfter` is a 32-bit field. */
  datatype Reply = Reply(kind: Atom, value: seq<Byte>, bytesAfter: U32)

  /** GetProperty with AnyPropertyType on a value of the given type: offset and length count 4-byte units;
      None is the BadValue error of an offset beyond the end. */
  function GetProperty(kind: Atom, value: seq<Byte>, offset: nat, length: nat): Option<Reply> {
    var start := 4 * offset;
    if start > |value| then None
    else
      var size := Min(|value| - start, 4 * length);
      Some(Reply(kind, value[start..start + size], (|value| - (start + size)) % 0x1_0000_0000))
  }

  /** The units one request asks for: 4 MiB. */
  const READ_UNITS: nat := 0x10_0000

  /** Done: the loop has ended and returns the data. */
  datatype ReadState = Done(data: seq<Byte>) | More(data: seq<Byte>, offset: U32)

  /** One pass of read_property's loop over a value that is not of type INCR. */
  function ReadPass(value: seq<Byte>, s: ReadState): ReadState {
    match s
    case Done(_) => s
    case More(data, offset) =>
      match GetProperty(NONE, value, offset, READ_UNITS)
      case None => Done(data)
      case Some(r) =>
        if r.bytesAfter > 0 then More(data + r.value, (offset + |r.value| / 4) % 0x1_0000_0000)
        else Done(data + r.value)
  }

  function ReadPasses(value: seq<Byte>, s: ReadState, n: nat): ReadState
    decreases n
  {
    if n == 0 then s else ReadPasses(value, ReadPass(value, s), n - 1)
  }

  /** How many bytes of a value of n bytes the loop returns: if n is a multiple of 4 MiB beyond 4 GiB, some reply
      leaves a multiple of 2^32 bytes, reports that none are left, and the loop stops there. */
  function ReadLength(n: nat): (k: nat)
    ensures k <= n
    ensures k == n <==> n <= 0x1_0000_0000 || n % 0x40_0000 != 0
  {
    if n % 0x40_0000 == 0 && n > 0x1_0000_0000 then (n - 1) % 0x1_0000_0000 + 1 else n
  }

  /** While the loop runs, 4·offset is the number of bytes gathered, and they are the value's first ones. */
  ghost predicate InStep(value: seq<Byte>, s: ReadState) {
    match s
    case Done(data) => data == value[..ReadLength(|value|)]
    case More(data, offset) =>
      && 4 * offset == |data| <= |value| && data == value[..|data|] && |data| % 0x40_0000 == 0
      && (|data| == 0 || |data| < ReadLength(|value|))
  }

  /** 1024 blocks of 4 MiB make up 2^32 bytes. */
  lemma {:induction false} BlockMod(x: nat)
    ensures 0x40_0000 * x % 0x1_0000_0000 == 0x40_0000 * (x % 1024)
  {
    var q := x / 1024;
    assert x == 1024 * q + x % 1024;
    assert 0x40_0000 * x == 0x1_0000_0000 * q + 0x40_0000 * (x % 1024);
  }

  lemma {:induction false} ReadBlocks(m: nat)
    requires m > 1024
    ensures ReadLength(0x40_0000 * m) == 0x40_0000 * ((m - 1) % 1024 + 1)
  {
    BlockMod(m - 1);
    var q, k := (m - 1) / 1024, (m - 1) % 1024;
    LastByteOfBlock(q, k);
    assert 0x40_0000 * m - 1 == 0x1_0000_0000 * q + (0x40_0000 * k + 0x3F_FFFF);
  }

  /** Stopping short or not, the loop returns something of every nonempty value, and whole words of whole words. */
  lemma {:induction false} ReadLengthAligned(n: nat)
    ensures n > 0 ==> ReadLength(n) > 0
    ensures ReadLength(n) % 4 == 0 <==> n % 4 == 0
  {
    hide ReadLength;
    if ReadLength(n) != n {
      var m := n / 0x40_0000;
      assert n == 0x40_0000 * m;
      BlocksAligned(m);
    }
  }

  lemma {:induction false} BlocksAligned(m: nat)
    requires m > 1024
    ensures var n := 0x40_0000 * m; n % 4 == 0 && ReadLength(n) > 0 && ReadLength(n) % 4 == 0
  {
    hide ReadLength;
    ReadBlocks(m);
    FourTimes(0x10_0000 * m);
    FourTimes(0x10_0000 * ((m - 1) % 1024 + 1));
  }

  lemma {:induction false} FourTimes(x: nat)
    ensures 4 * x % 4 == 0
  {
  }

  lemma {:induction false} LastByteOfBlock(q: nat, k: nat)
    requires k < 1024
    ensures (0x1_0000_0000 * q + (0x40_0000 * k + 0x3F_FFFF)) % 0x1_0000_0000 == 0x40_0000 * k + 0x3F_FFFF
  {
    var r := 0x40_0000 * k + 0x3F_FFFF;
    var n := 0x1_0000_0000 * q + r;
    var d, e := n / 0x1_0000_0000, n % 0x1_0000_0000;
    assert n == 0x1_0000_0000 * d + e;
    assert 0x1_0000_0000 * (q - d) == e - r;
    assert q == d;
  }

  /** Of what a reply leaves, its 32-bit count is zero exactly when the loop has reached its last byte. */
  lemma {:induction false} CountIsZeroIff(n: nat, k: nat)
    requires k % 0x40_0000 == 0 && k < n && (k == 0 || k < ReadLength(n))
    ensures n - k <= 0x40_0000 ==> ReadLength(n) == n
    ensures n - k > 0x40_0000 ==>
              if (n - k - 0x40_0000) % 0x1_0000_0000 == 0 then ReadLength(n) == k + 0x40_0000
              else k + 0x40_0000 < ReadLength(n)
  {
    var i := k / 0x40_0000;
    if n % 0x40_0000 == 0 && n > 0x1_0000_0000 {
      var m := n / 0x40_0000;
      ReadBlocks(m);
      BlocksLeft(m, i);
    } else {
      if n - k > 0x40_0000 {
        WholeLeft(n, i);
      }
    }
  }

  lemma {:induction false} BlocksLeft(m: nat, i: nat)
    requires i < m && m > 1024 && (i == 0 || i < (m - 1) % 1024 + 1)
    ensures m - i > 1
    ensures var left := 0x40_0000 * m - 0x40_0000 * i - 0x40_0000;
            if left % 0x1_0000_0000 == 0 then (m - 1) % 1024 + 1 == i + 1 else i + 1 < (m - 1) % 1024 + 1
  {
    BlockMod(m - i - 1);
    assert 0x40_0000 * m - 0x40_0000 * i - 0x40_0000 == 0x40_0000 * (m - i - 1);
  }

  lemma {:induction false} WholeLeft(n: nat, i: nat)
    requires n % 0x40_0000 != 0 || n <= 0x1_0000_0000
    requires n - 0x40_0000 * i > 0x40_0000
    ensures (n - 0x40_0000 * i - 0x40_0000) % 0x1_0000_0000 != 0
  {
    var left := n - 0x40_0000 * i - 0x40_0000;
    var q, r := left / 0x1_0000_0000, left % 0x1_0000_0000;
    assert n == 0x40_0000 * (1024 * q + i + 1) + r;
  }

  lemma {:induction false} PassKeepsStep(value: seq<Byte>, data: seq<Byte>, offset: U32)
    requires |value| < 0x4_0000_0000 && InStep(value, More(data, offset))
    ensures var s := ReadPass(value, More(data, offset));
            InStep(value, s) && (s.More? ==> |s.data| == |data| + 0x40_0000)
  {
    hide ReadLength;
    var r := GetProperty(NONE, value, offset, READ_UNITS).value;
    assert data + r.value == value[..|data| + |r.value|];
    if |data| < |value| {
      CountIsZeroIff(|value|, |data|);
    }
    NothingToRead();
  }

  lemma {:induction false} NothingToRead()
    ensures ReadLength(0) == 0
  {
  }

  lemma {:induction false} PassesEnd(value: seq<Byte>, data: seq<Byte>, offset: U32, n: nat)
    requires |value| < 0x4_0000_0000 && InStep(value, More(data, offset))
    requires |value| - |data| < n * 0x40_0000
    ensures ReadPasses(value, More(data, offset), n) == Done(value[..ReadLength(|value|)])
    decreases n
  {
    hide ReadPass, InStep, ReadLength;
    PassKeepsStep(value, data, offset);
    PassLeaves(value, data, offset);
    var s := ReadPass(value, More(data, offset));
    match s
    case Done(d) => DoneStays(value, d, n - 1); DoneIs(value, d);
    case More(d, o) => PassLeaves(value, d, o); PassesEnd(value, d, o, n - 1);
  }

  lemma {:induction false} PassLeaves(value: seq<Byte>, data: seq<Byte>, offset: U32)
    requires InStep(value, More(data, offset))
    ensures |data| <= |value|
  {
  }

  lemma {:induction false} DoneIs(value: seq<Byte>, data: seq<Byte>)
    requires InStep(value, Done(data))
    ensures data == value[..ReadLength(|value|)]
  {
  }

  lemma {:induction false} DoneStays(value: seq<Byte>, data: seq<Byte>, n: nat)
    ensures ReadPasses(value, Done(data), n) == Done(data)
    decreases n
  {
    if n > 0 {
      DoneStays(value, data, n - 1);
    }
  }

  /** On every value a property can hold the loop terminates, after at most one pass for every 4 MiB begun, with a
      prefix of the value; that is the value itself exactly unless the value is a multiple of 4 MiB beyond 4 GiB. */
  lemma {:induction false} ReadTerminates(v: Property)
    ensures var s := ReadPasses(v.value, More([], 0), |v.value| / 0x40_0000 + 1);
            && s == Done(v.value[..ReadLength(|v.value|)])
            && (s.data == v.value <==> |v.value| <= 0x1_0000_0000 || |v.value| % 0x40_0000 != 0)
  {
    hide ReadPasses, ReadPass;
    PassesEnd(v.value, [], 0, |v.value| / 0x40_0000 + 1);
  }

  /** The smallest such value: of 4 GiB and 4 MiB, the first 4 MiB are returned. */
  lemma {:induction false} ReadStopsShort(v: Property)
    requires |v.value| == 0x1_0040_0000
    ensures ReadPasses(v.value, More([], 0), 1) == Done(v.value[..0x40_0000])
  {
    assert v.value[0..0x40_0000] == v.value[..0x40_0000];
    assert ReadPasses(v.value, ReadPass(v.value, More([], 0)), 0) == ReadPass(v.value, More([], 0));
  }
}
