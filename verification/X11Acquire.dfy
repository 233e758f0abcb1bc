/** Becoming the owner of an X selection (src/clipboard/x11.cpp, acquire_selection). */
module X11Acquire {
  import opened Bytes
  import opened Mime
  import opened X11Server
  import opened X11Owner
  import opened X11Serve
  import opened X11Paste
  import opened X11Identity

  /** selection_atom. */
  function SelectionAtom(a: Atoms, primary: bool): Atom {
    if primary then a.primary else a.clipboard
  }

  lemma {:induction false} DedupShortens(names: seq<Name>)
    ensures |Dedup(names)| <= |names|
    decreases |names|
  {
    if names != [] {
      DedupShortens(names[..|names| - 1]);
    }
  }

  lemma {:induction false} NonTextShortens(mimes: seq<Name>)
    ensures |NonText(mimes)| <= |mimes|
    decreases |mimes|
  {
    hide IsTextual;
    if mimes != [] {
      NonTextShortens(mimes[1..]);
    }
  }

  /** Opens a client on the server, builds the target list and takes the selection; `granted` is what the server then
      says about the selection's owner. With numbers left on the server and payload and list in the range of one
      property, the owner is the one a paste of these types and bytes needs. */
  method AcquireSelection(server: Interner, primary: bool, mimes: seq<Name>, bytes: seq<Byte>, granted: bool)
    returns (r: Option<Owner>)
    requires server.Valid()
    requires forall m | m in mimes :: Carried(m) == m
    modifies server
    ensures server.Valid() && Grew(old(server.table), server.table)
    ensures r.Some? <==> mimes != [] && granted
    ensures r.Some? ==>
              var o := r.value;
              && OwnerOk(o) && o.mimes == mimes && o.bytes == bytes && o.time == 0
              && o.selection == (if primary then 1 else Lookup(server.table, Ascii("CLIPBOARD")))
              && Parallel(server.table, o.targets)
              && o.targets.names == Dedup(Known(server.table, Candidates(mimes)))
    ensures r.Some? && old(server.last) + 9 + |mimes| <= 0xFFFF_FFFF && (forall m | m in mimes :: m != [])
            ==> OwnerSound(server.table, r.value)
    ensures r.Some? && old(server.last) + 9 + |mimes| <= 0xFFFF_FFFF && (forall m | m in mimes :: m != [])
            && |mimes| + 2 <= 0x4000_0000 && |bytes| < 0x1_0000_0000 ==>
              forall oneshot, me :: Acquired(Parties(server.table, r.value, oneshot, me, r.value.a), mimes)
  {
    hide TableOk, Loaded, Cached, Dedup, Known, NonText, HasText;
    if mimes == [] {
      return None;
    }
    var a := LoadAtoms(server);
    ghost var t := server.table;
    var targets := BuildTargets(server, a, mimes);
    if !granted {
      return None;
    }
    r := Some(Owner(a, SelectionAtom(a, primary), targets, mimes, bytes, 0));
    if Loaded(t, a) {
      StillLoaded(t, server.table, a);
    }
    ClipboardKept(t, server.table, a);
    DedupShortens(Candidates(mimes));
    NonTextShortens(mimes);
  }

  lemma {:induction false} ClipboardKept(t: AtomTable, t': AtomTable, a: Atoms)
    requires Cached(t, a) && Grew(t, t') && (Loaded(t, a) || t' == t)
    ensures a.primary == 1 && a.clipboard == Lookup(t', Ascii("CLIPBOARD"))
  {
  }

  lemma {:induction false} StillLoaded(t: AtomTable, t': AtomTable, a: Atoms)
    requires Loaded(t, a) && Grew(t, t')
    ensures Loaded(t', a)
  {
  }
}
