/** The owner of an X selection (src/clipboard/x11.cpp): the targets it advertises, the requests it answers. */
module X11Owner {
  import opened Bytes
  import opened Mime
  import opened X11Server

  // ---- Advertised targets -------------------------------------------------

  /** Two parallel lists. */
  datatype Targets = Targets(atoms: seq<Atom>, names: seq<Name>)

  function NonText(mimes: seq<Name>): seq<Name> {
    if mimes == [] then []
    else (if IsTextual(mimes[0]) then [] else [mimes[0]]) + NonText(mimes[1..])
  }

  predicate HasText(mimes: seq<Name>) {
    exists i :: 0 <= i < |mimes| && IsTextual(mimes[i])
  }

  /** The names to advertise before duplicates are dropped. */
  function Candidates(mimes: seq<Name>): seq<Name> {
    [TARGETS] + NonText(mimes) + (if HasText(mimes) then [UTF8_STRING] else [])
  }

  /** Every name at its first occurrence only. */
  function Dedup(names: seq<Name>): (d: seq<Name>)
    ensures forall n :: n in d <==> n in names
    ensures forall i, j | 0 <= i < j < |d| :: d[i] != d[j]
  {
    if names == [] then []
    else
      var init, last := names[..|names| - 1], names[|names| - 1];
      assert names == init + [last];
      var d := Dedup(init);
      if last in d then d else d + [last]
  }

  /** The lists are parallel: each atom is its name's. */
  ghost predicate Parallel(t: AtomTable, ts: Targets) {
    |ts.atoms| == |ts.names| && forall i | 0 <= i < |ts.atoms| :: Named(t, ts.names[i], ts.atoms[i])
  }

  /** One `add`: skipped for the atom None and for an atom already listed. */
  function Add(ts: Targets, a: Atom, name: Name): Targets {
    if a == NONE || a in ts.atoms then ts else Targets(ts.atoms + [a], ts.names + [name])
  }

  lemma {:induction false} AddIsDedup(t: AtomTable, ts: Targets, names: seq<Name>, a: Atom, name: Name)
    requires TableOk(t) && Parallel(t, ts) && ts.names == Dedup(names) && Named(t, name, a)
    ensures var r := Add(ts, a, name); Parallel(t, r) && r.names == Dedup(names + [name])
  {
    hide Dedup, TableOk;
    SnocDedup(names, name);
    NameListed(t, ts, name, a);
    SameNameIffSameAtom(t, name, a, name, a);
  }

  lemma {:induction false} SnocDedup(names: seq<Name>, name: Name)
    ensures Dedup(names + [name]) == if name in Dedup(names) then Dedup(names) else Dedup(names) + [name]
  {
    var all := names + [name];
    assert all[..|all| - 1] == names && all[|all| - 1] == name;
  }

  lemma {:induction false} NonTextSnoc(mimes: seq<Name>, m: Name)
    ensures NonText(mimes + [m]) == NonText(mimes) + (if IsTextual(m) then [] else [m])
    ensures HasText(mimes + [m]) <==> HasText(mimes) || IsTextual(m)
    decreases |mimes|
  {
    hide IsTextual;
    var all := mimes + [m];
    assert all[|mimes|] == m && forall i | 0 <= i < |mimes| :: all[i] == mimes[i];
    if mimes == [] {
      assert all == [m] && [m][1..] == [];
      assert NonText([]) == [];
    } else {
      assert all[1..] == mimes[1..] + [m];
      NonTextSnoc(mimes[1..], m);
      Assoc(if IsTextual(mimes[0]) then [] else [mimes[0]], NonText(mimes[1..]), if IsTextual(m) then [] else [m]);
    }
  }

  /** The names among these that the server knows. */
  function Known(t: AtomTable, names: seq<Name>): seq<Name> {
    if names == [] then []
    else Known(t, names[..|names| - 1]) + (if names[|names| - 1] in t.atoms then [names[|names| - 1]] else [])
  }

  lemma {:induction false} KnownSnoc(t: AtomTable, names: seq<Name>, n: Name)
    ensures Known(t, names + [n]) == Known(t, names) + (if n in t.atoms then [n] else [])
  {
    var all := names + [n];
    assert all[..|all| - 1] == names && all[|all| - 1] == n;
  }

  lemma {:induction false} AllKnown(t: AtomTable, names: seq<Name>)
    requires forall n | n in names :: n in t.atoms
    ensures Known(t, names) == names
    decreases |names|
  {
    if names != [] {
      var init, last := names[..|names| - 1], names[|names| - 1];
      assert names == init + [last];
      AllKnown(t, init);
    }
  }

  /** One `add` of a name with the atom the server has for it, if any. */
  lemma {:induction false} AddKnown(t: AtomTable, ts: Targets, names: seq<Name>, a: Atom, name: Name)
    requires TableOk(t) && Parallel(t, ts) && ts.names == Dedup(Known(t, names)) && a == Lookup(t, name)
    ensures var r := Add(ts, a, name); Parallel(t, r) && r.names == Dedup(Known(t, names + [name]))
  {
    hide Dedup, Known;
    KnownSnoc(t, names, name);
    if name in t.atoms {
      AddIsDedup(t, ts, Known(t, names), a, name);
    } else {
      assert Known(t, names) + [] == Known(t, names);
    }
  }

  /** build_targets. All InternAtom requests are sent before the first reply is looked at. The names listed are the
      candidates the server has atoms for, each once, in order: all of them if it had numbers left. */
  method BuildTargets(server: Interner, a: Atoms, mimes: seq<Name>) returns (ts: Targets)
    requires server.Valid() && Cached(server.table, a) && (Loaded(server.table, a) || server.last == 0xFFFF_FFFF)
    requires forall m | m in mimes :: Carried(m) == m
    modifies server
    ensures server.Valid() && Grew(old(server.table), server.table)
    ensures old(server.last) == 0xFFFF_FFFF ==> server.table == old(server.table)
    ensures Parallel(server.table, ts) && ts.names == Dedup(Known(server.table, Candidates(mimes)))
    ensures Loaded(old(server.table), a) && old(server.last) + |mimes| <= 0xFFFF_FFFF ==>
            ts.names == Dedup(Candidates(mimes))
  {
    hide Dedup, Known, NonText, HasText, Loaded, Cached, TableOk, IsTextual;
    ghost var was := server.table;
    ghost var full := server.last == 0xFFFF_FFFF;
    ts := Add(Targets([], []), a.targets, TARGETS);
    var hasText, toIntern, replies := InternNonText(server, mimes);
    TwoCached(was, server.table, a, full);
    ghost var t := server.table;
    NothingThere([]);
    ghost var names: seq<Name> := [];
    assert Known(t, []) == [] by { NothingKnown(t); }
    AddKnown(t, Targets([], []), names, a.targets, TARGETS);
    names := [TARGETS];
    assert [] + [TARGETS] == [TARGETS];
    for i := 0 to |toIntern|
      invariant server.Valid() && server.table == t
      invariant Parallel(t, ts) && ts.names == Dedup(Known(t, names)) && names == [TARGETS] + toIntern[..i]
    {
      AddKnown(t, ts, names, replies[i], toIntern[i]);
      names := names + [toIntern[i]];
      ts := Add(ts, replies[i], toIntern[i]);
      assert toIntern[..i + 1] == toIntern[..i] + [toIntern[i]];
    }
    assert toIntern[..|toIntern|] == toIntern;
    if hasText {
      AddKnown(t, ts, names, a.utf8String, UTF8_STRING);
      ts := Add(ts, a.utf8String, UTF8_STRING);
    }
    assert [TARGETS] + toIntern + [] == [TARGETS] + toIntern;
    if Loaded(was, a) && old(server.last) + |mimes| <= 0xFFFF_FFFF {
      LoadedKnown(was, t, a);
      AllKnown(t, Candidates(mimes));
    }
  }

  lemma {:induction false} NothingKnown(t: AtomTable)
    ensures Known(t, []) == []
  {
  }

  /** The two atoms build_targets takes from the cache are still the server's. */
  lemma {:induction false} TwoCached(t: AtomTable, t': AtomTable, a: Atoms, full: bool)
    requires TableOk(t) && Cached(t, a) && (Loaded(t, a) || full) && Grew(t, t') && (full ==> t' == t)
    ensures a.targets == Lookup(t', TARGETS) && a.utf8String == Lookup(t', UTF8_STRING)
  {
    hide TableOk;
  }

  lemma {:induction false} LoadedKnown(t: AtomTable, t': AtomTable, a: Atoms)
    requires Loaded(t, a) && Grew(t, t')
    ensures TARGETS in t'.atoms && UTF8_STRING in t'.atoms
  {
  }

  /** The first pass: which names are textual, and the atoms of the others. */
  method InternNonText(server: Interner, mimes: seq<Name>)
    returns (hasText: bool, toIntern: seq<Name>, replies: seq<Atom>)
    requires server.Valid()
    requires forall m | m in mimes :: Carried(m) == m
    modifies server
    ensures server.Valid() && Grew(old(server.table), server.table)
    ensures old(server.last) == 0xFFFF_FFFF ==> server.table == old(server.table)
    ensures hasText == HasText(mimes) && toIntern == NonText(mimes) && |replies| == |toIntern|
    ensures forall j | 0 <= j < |replies| :: replies[j] == Lookup(server.table, toIntern[j])
    ensures old(server.last) + |mimes| <= 0xFFFF_FFFF ==>
              server.last <= old(server.last) + |mimes| && forall n | n in toIntern :: n in server.table.atoms
  {
    hide NonText, HasText, TableOk, IsTextual;
    hasText, toIntern, replies := false, [], [];
    assert NonText(mimes[..0]) == [] && !HasText(mimes[..0]) by { NothingThere(mimes[..0]); }
    for i := 0 to |mimes|
      invariant server.Valid() && Grew(old(server.table), server.table)
      invariant old(server.last) == 0xFFFF_FFFF ==> server.table == old(server.table)
      invariant old(server.last) <= server.last <= old(server.last) + i
      invariant hasText == HasText(mimes[..i]) && toIntern == NonText(mimes[..i]) && |replies| == |toIntern|
      invariant forall j | 0 <= j < |replies| :: replies[j] == Lookup(server.table, toIntern[j])
      invariant forall j | 0 <= j < |replies| :: toIntern[j] in server.table.atoms || server.last == 0xFFFF_FFFF
      invariant old(server.last) + |mimes| <= 0xFFFF_FFFF ==>
                forall j | 0 <= j < |replies| :: toIntern[j] in server.table.atoms
    {
      assert mimes[i] in mimes;
      assert mimes[..i + 1] == mimes[..i] + [mimes[i]];
      NonTextSnoc(mimes[..i], mimes[i]);
      if IsTextual(mimes[i]) {
        hasText := true;
      } else {
        var reply := server.Intern(mimes[i]);
        replies := replies + [reply];
        toIntern := toIntern + [mimes[i]];
      }
    }
    assert mimes[..|mimes|] == mimes;
  }

  lemma {:induction false} NothingThere(mimes: seq<Name>)
    requires mimes == []
    ensures NonText(mimes) == [] && !HasText(mimes) && Dedup(mimes) == []
  {
  }

  // ---- Serving ------------------------------------------------------------

  /** The first textual type, [] if there is none. */
  function FirstTextual(mimes: seq<Name>): Name {
    if mimes == [] then []
    else if IsTextual(mimes[0]) then mimes[0]
    else FirstTextual(mimes[1..])
  }

  /** The name listed for an atom; [] for none and for the two meta targets. */
  function ListedName(ts: Targets, target: Atom): Name
    requires |ts.atoms| == |ts.names|
    decreases |ts.atoms|
  {
    if ts.atoms == [] then []
    else if ts.atoms[0] == target then
      if ts.names[0] == TARGETS || ts.names[0] == TIMESTAMP then [] else ts.names[0]
    else ListedName(Targets(ts.atoms[1..], ts.names[1..]), target)
  }

  /** match_target: the type to serve for a target, [] to refuse. */
  function MatchTarget(ts: Targets, mimes: seq<Name>, target: Atom, a: Atoms): Name
    requires |ts.atoms| == |ts.names|
  {
    if target == a.utf8String || target == a.stringAtom || target == a.text then FirstTextual(mimes)
    else ListedName(ts, target)
  }

  lemma {:induction false} TextualIsNonempty(m: Name)
    requires IsTextual(m)
    ensures m != []
  {
    NamesDiffer();
  }

  lemma {:induction false} FirstTextualIff(mimes: seq<Name>)
    ensures FirstTextual(mimes) != [] <==> HasText(mimes)
    ensures FirstTextual(mimes) != [] ==> FirstTextual(mimes) in mimes
    decreases |mimes|
  {
    hide IsTextual;
    if mimes != [] {
      if IsTextual(mimes[0]) {
        TextualIsNonempty(mimes[0]);
      } else {
        FirstTextualIff(mimes[1..]);
        assert forall i | 1 <= i < |mimes| :: mimes[i] == mimes[1..][i - 1];
      }
    }
  }

  /** A listed atom gives its name back, unless that names a meta target. */
  lemma {:induction false} ListedNameIs(t: AtomTable, ts: Targets, target: Atom)
    requires TableOk(t) && Parallel(t, ts)
    ensures target !in ts.atoms ==> ListedName(ts, target) == []
    ensures target in ts.atoms ==>
              var n := AtomName(t, target);
              && n in ts.names && Named(t, n, target)
              && ListedName(ts, target) == if n == TARGETS || n == TIMESTAMP then [] else n
    decreases |ts.atoms|
  {
    hide TableOk;
    if ts.atoms != [] {
      var rest := Targets(ts.atoms[1..], ts.names[1..]);
      if ts.atoms[0] == target {
        assert Named(t, ts.names[0], ts.atoms[0]);
        SameNameIffSameAtom(t, ts.names[0], ts.atoms[0], ts.names[0], ts.atoms[0]);
      } else {
        forall i | 0 <= i < |rest.atoms| ensures Named(t, rest.names[i], rest.atoms[i]) {
          assert Named(t, ts.names[i + 1], ts.atoms[i + 1]);
        }
        ListedNameIs(t, rest, target);
        assert ts.atoms == [ts.atoms[0]] + rest.atoms && ts.names == [ts.names[0]] + rest.names;
      }
    }
  }

  /** Whether a request for this target gets something other than a refusal. */
  predicate Answered(ts: Targets, mimes: seq<Name>, target: Atom, a: Atoms)
    requires |ts.atoms| == |ts.names|
  {
    target == a.targets || target == a.timestamp || MatchTarget(ts, mimes, target, a) != []
  }

  lemma {:induction false} LoadedNames(t: AtomTable, a: Atoms)
    requires TableOk(t) && Loaded(t, a)
    ensures Named(t, TARGETS, a.targets) && Named(t, UTF8_STRING, a.utf8String) && Named(t, STRING, a.stringAtom)
    ensures Named(t, TEXT, a.text) && Named(t, TIMESTAMP, a.timestamp)
  {
  }

  /** Every advertised target is answered, and apart from TIMESTAMP and, when there is text, STRING and TEXT,
      no other is. */
  lemma {:induction false} AdvertisedIffAnswered(t: AtomTable, a: Atoms, mimes: seq<Name>, ts: Targets, target: Atom)
    requires TableOk(t) && Loaded(t, a) && Parallel(t, ts) && ts.names == Dedup(Candidates(mimes))
    requires forall m | m in mimes :: m != []
    ensures Answered(ts, mimes, target, a)
       <==> (target in ts.atoms || target == a.timestamp
             || (HasText(mimes) && (target == a.stringAtom || target == a.text)))
  {
    hide Dedup, NonText, HasText, IsTextual, FirstTextual, ListedName, TableOk, AtomName;
    NamesDiffer();
    FirstTextualIff(mimes);
    ListedNameIs(t, ts, target);
    NonTextMembers(mimes);
    LoadedNames(t, a);
    NameListed(t, ts, TARGETS, a.targets);
    NameListed(t, ts, UTF8_STRING, a.utf8String);
    NameListed(t, ts, STRING, a.stringAtom);
    NameListed(t, ts, TEXT, a.text);
    var n := AtomName(t, target);
    if target in ts.atoms {
      SameNameIffSameAtom(t, n, target, TARGETS, a.targets);
      SameNameIffSameAtom(t, n, target, TIMESTAMP, a.timestamp);
    }
    assert IsTextual(UTF8_STRING) && IsTextual(STRING) && IsTextual(TEXT) && !IsTextual(TARGETS) by { KnownTexts(); }
  }

  lemma {:induction false} KnownTexts()
    ensures IsTextual(UTF8_STRING) && IsTextual(STRING) && IsTextual(TEXT)
    ensures !IsTextual(TARGETS) && !IsTextual(TIMESTAMP) && !IsTextual(MULTIPLE) && !IsTextual(INCR) && !IsTextual([])
    ensures IsTextual(TEXT_PLAIN_UTF8) && IsTextual(TEXT_PLAIN)
  {
    NamesDiffer();
    assert TEXT_PREFIX[0] == 0x74;
    assert TARGETS[0] == 0x54 && TIMESTAMP[0] == 0x54 && MULTIPLE[0] == 0x4D && INCR[0] == 0x49;
    assert TEXT_PLAIN_UTF8[..5] == TEXT_PREFIX && TEXT_PLAIN[..5] == TEXT_PREFIX;
  }

  lemma {:induction false} NonTextMembers(mimes: seq<Name>)
    ensures forall n :: n in NonText(mimes) <==> n in mimes && !IsTextual(n)
    decreases |mimes|
  {
    hide IsTextual;
    if mimes != [] {
      NonTextMembers(mimes[1..]);
      assert mimes == [mimes[0]] + mimes[1..];
    }
  }

  /** A name is listed exactly when its atom is. */
  lemma {:induction false} NameListed(t: AtomTable, ts: Targets, name: Name, a: Atom)
    requires TableOk(t) && Parallel(t, ts) && Named(t, name, a)
    ensures name in ts.names <==> a in ts.atoms
  {
    hide TableOk;
    if name in ts.names {
      var i :| 0 <= i < |ts.names| && ts.names[i] == name;
      assert Named(t, ts.names[i], ts.atoms[i]);
      assert ts.atoms[i] in ts.atoms;
    }
    if a in ts.atoms {
      var i :| 0 <= i < |ts.atoms| && ts.atoms[i] == a;
      assert Named(t, ts.names[i], ts.atoms[i]);
      SameNameIffSameAtom(t, ts.names[i], a, name, a);
    }
  }
}
