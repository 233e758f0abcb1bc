/** The libwayland paste (src/clipboard/data_control.cpp) as a second implementation the handcrafted one must
    agree with. It handles whole batches of events between two looks at its goal. */
module DataControl {
  import opened Bytes
  import opened Mime
  import opened Handcrafted
  import opened PasteRuns

  /** The event handlers. A selection is resolved to a pointer when it arrives; 0 is the null pointer. */
  function LibApply(p: PasteState, ev: ClipEvent): PasteState {
    match ev
    case Selected(Regular, id) => p.(currentRegular := Pointer(p, id), gotRegular := true)
    case Selected(Primary, id) => p.(currentPrimary := Pointer(p, id), gotPrimary := true)
    case _ => Apply(p, ev)
  }

  /** find_offer. */
  function Pointer(p: PasteState, id: U32): U32 {
    if id != 0 && FindOffer(p.offers, id).Some? then id else 0
  }

  function LibApplyAll(p: PasteState, evs: seq<ClipEvent>): PasteState
    decreases |evs|
  {
    if evs == [] then p else LibApplyAll(LibApply(p, evs[0]), evs[1..])
  }

  /** The wait: one batch after the other until the goal holds; None if the connection ends first. */
  function LibWait(sel: Selection, p: PasteState, batches: seq<seq<ClipEvent>>): Option<PasteState>
    decreases |batches|
  {
    if HaveTarget(sel, p) then Some(p)
    else if batches == [] then None
    else LibWait(sel, LibApplyAll(p, batches[0]), batches[1..])
  }

  /** The types of the offer the pointer leads to. */
  function LibTypes(sel: Selection, p: PasteState): Option<seq<Name>> {
    var id := Current(sel, p);
    if id == 0 then None
    else
      var rec := FindOffer(p.offers, id);
      if rec.None? then None else Some(rec.value.mimes)
  }

  function Flatten(batches: seq<seq<ClipEvent>>): seq<ClipEvent> {
    if batches == [] then [] else batches[0] + Flatten(batches[1..])
  }

  // ---- Batches ------------------------------------------------------------

  lemma {:induction false} LibApplyAllConcat(p: PasteState, a: seq<ClipEvent>, b: seq<ClipEvent>)
    ensures LibApplyAll(p, a + b) == LibApplyAll(LibApplyAll(p, a), b)
    decreases |a|
  {
    hide LibApply;
    if a == [] {
      assert a + b == b;
    } else {
      assert (a + b)[1..] == a[1..] + b;
      LibApplyAllConcat(LibApply(p, a[0]), a[1..], b);
    }
  }

  lemma {:induction false} TargetByBatch(sel: Selection, p: PasteState, evs: seq<ClipEvent>)
    requires !HaveTarget(sel, p)
    ensures HaveTarget(sel, LibApplyAll(p, evs)) <==> exists i :: 0 <= i < |evs| && IsTarget(sel, evs[i])
    decreases |evs|
  {
    hide AddMime, Pointer;
    if evs != [] {
      if IsTarget(sel, evs[0]) {
        StaysTarget(sel, LibApply(p, evs[0]), evs[1..]);
      } else {
        TargetByBatch(sel, LibApply(p, evs[0]), evs[1..]);
        if i :| 0 <= i < |evs| && IsTarget(sel, evs[i]) {
          assert evs[1..][i - 1] == evs[i];
        }
        if j :| 0 <= j < |evs[1..]| && IsTarget(sel, evs[1..][j]) {
          assert evs[j + 1] == evs[1..][j];
        }
      }
    }
  }

  lemma {:induction false} StaysTarget(sel: Selection, p: PasteState, evs: seq<ClipEvent>)
    requires HaveTarget(sel, p)
    ensures HaveTarget(sel, LibApplyAll(p, evs))
    decreases |evs|
  {
    hide AddMime, Pointer;
    if evs != [] {
      StaysTarget(sel, LibApply(p, evs[0]), evs[1..]);
    }
  }

  /** However the trace is batched, the wait has handled exactly its first n events when it ends, where n lies
      behind the first target event. */
  lemma {:induction false} WaitEndsBehindTarget(sel: Selection, p: PasteState,
                                                batches: seq<seq<ClipEvent>>) returns (n: nat)
    requires !HaveTarget(sel, p) && FirstTarget(sel, Flatten(batches)) < |Flatten(batches)|
    ensures FirstTarget(sel, Flatten(batches)) < n <= |Flatten(batches)|
    ensures LibWait(sel, p, batches) == Some(LibApplyAll(p, Flatten(batches)[..n]))
    decreases |batches|
  {
    hide LibApply, HaveTarget, IsTarget, LibApplyAll;
    var evs := Flatten(batches);
    var k := FirstTarget(sel, evs);
    var first := batches[0];
    var q := LibApplyAll(p, first);
    assert evs == first + Flatten(batches[1..]);
    TargetByBatch(sel, p, first);
    if k < |first| {
      assert IsTarget(sel, first[k]) by { assert first[k] == evs[k]; }
      n := |first|;
      assert evs[..n] == first;
    } else {
      assert forall i | 0 <= i < |first| :: first[i] == evs[i];
      var rest := Flatten(batches[1..]);
      TargetInRest(sel, first, rest);
      var n' := WaitEndsBehindTarget(sel, q, batches[1..]);
      n := |first| + n';
      assert evs[..n] == first + rest[..n'];
      LibApplyAllConcat(p, first, rest[..n']);
    }
  }

  lemma {:induction false} TargetInRest(sel: Selection, a: seq<ClipEvent>, b: seq<ClipEvent>)
    requires forall i | 0 <= i < |a| :: !IsTarget(sel, a[i])
    ensures FirstTarget(sel, a + b) == |a| + FirstTarget(sel, b)
    decreases |a|
  {
    hide IsTarget;
    if a == [] {
      assert a + b == b;
    } else {
      assert (a + b)[1..] == a[1..] + b;
      assert (a + b)[0] == a[0];
      TargetInRest(sel, a[1..], b);
    }
  }

  // ---- The offer it picks -------------------------------------------------

  lemma {:induction false} SameOffers(p: PasteState, q: PasteState, evs: seq<ClipEvent>)
    requires p.offers == q.offers
    ensures LibApplyAll(p, evs).offers == ApplyAll(q, evs).offers
    decreases |evs|
  {
    hide AddMime, Pointer;
    if evs != [] {
      SameOffers(LibApply(p, evs[0]), Apply(q, evs[0]), evs[1..]);
    }
  }

  lemma {:induction false} PointerKept(sel: Selection, p: PasteState, evs: seq<ClipEvent>)
    requires forall i | 0 <= i < |evs| :: !(evs[i].Selected? && evs[i].sel == sel)
    ensures Current(sel, LibApplyAll(p, evs)) == Current(sel, p)
    decreases |evs|
  {
    hide AddMime, Pointer;
    if evs != [] {
      assert !(evs[0].Selected? && evs[0].sel == sel);
      PointerKept(sel, LibApply(p, evs[0]), evs[1..]);
    }
  }

  /** Types announced later extend the tale; without any the tale stays. */
  lemma {:induction false} TaleGrows(a: seq<ClipEvent>, b: seq<ClipEvent>, id: U32)
    requires OfferTale(a, id).Some?
    ensures OfferTale(a + b, id) == Some(OfferTale(a, id).value + MimesFor(b, id))
    decreases |b|
  {
    hide OfferTale, MimesFor;
    if b == [] {
      assert a + b == a && OfferTale(a, id).value + [] == OfferTale(a, id).value;
      NoMimes(id);
    } else {
      var init, last := b[..|b| - 1], b[|b| - 1];
      assert a + b == a + init + [last] && b == init + [last];
      TaleGrows(a, init, id);
      OfferTaleSnoc(a + init, last, id);
      MimesForSnoc(init, last, id);
      Assoc(OfferTale(a, id).value, MimesFor(init, id), if last.OfferMime? && last.id == id then [last.mime] else []);
      assert MimesFor(init, id) + [] == MimesFor(init, id);
    }
  }

  /** One event of the requested kind: nothing after the first target event selects again. */
  ghost predicate SelectsOnce(sel: Selection, evs: seq<ClipEvent>) {
    forall i | FirstTarget(sel, evs) < i < |evs| :: !(evs[i].Selected? && evs[i].sel == sel)
  }

  /** What the library ends up with after n events, n behind the first target event k: the offer selected at k if
      it had been made by then, with the types announced up to n. */
  lemma {:induction false} LibPicks(sel: Selection, evs: seq<ClipEvent>, n: nat)
    requires SelectsOnce(sel, evs) && FirstTarget(sel, evs) < n <= |evs|
    ensures var k := FirstTarget(sel, evs);
            var types := LibTypes(sel, LibApplyAll(NewPaste().ext, evs[..n]));
            match SelectedTypes(sel, evs)
            case None => types.None?
            case Some(mimes) => types == Some(mimes + MimesFor(evs[k + 1..n], evs[k].id))
  {
    hide LibApplyAll, ApplyAll, FindOffer, OfferTale, MimesFor, AddMime, IsTarget;
    var p := NewPaste().ext;
    var k := FirstTarget(sel, evs);
    var before, after := evs[..k], evs[k + 1..n];
    assert evs[..n] == before + [evs[k]] + after;
    LibApplyAllConcat(p, before + [evs[k]], after);
    LibApplyAllConcat(p, before, [evs[k]]);
    var q := LibApplyAll(p, before);
    OneLib(q, evs[k]);
    assert forall i | 0 <= i < k :: before[i] == evs[i];
    TargetsSelect(sel, before);
    PointerKept(sel, p, before);
    PointerKept(sel, LibApply(q, evs[k]), after);
    SameOffers(p, p, before);
    SameOffers(p, p, evs[..n]);
    assert IsTarget(sel, evs[k]);
    TargetKind(sel, evs[k]);
    if evs[k].Selected? && evs[k].id != 0 {
      var id := evs[k].id;
      RecordIsTale(p, before, id);
      RecordIsTale(p, evs[..n], id);
      if OfferTale(before, id).Some? {
        assert evs[..n] == before + ([evs[k]] + after);
        TaleGrows(before, [evs[k]] + after, id);
        SkipSelection(evs[k], after, id);
      }
    }
  }

  lemma {:induction false} OneLib(p: PasteState, ev: ClipEvent)
    ensures LibApplyAll(p, [ev]) == LibApply(p, ev)
  {
    hide LibApply;
    assert [ev][1..] == [];
  }

  lemma {:induction false} TargetsSelect(sel: Selection, evs: seq<ClipEvent>)
    requires forall i | 0 <= i < |evs| :: !IsTarget(sel, evs[i])
    ensures forall i | 0 <= i < |evs| :: !(evs[i].Selected? && evs[i].sel == sel)
  {
    assert forall i | 0 <= i < |evs| :: !IsTarget(sel, evs[i]) ==> !(evs[i].Selected? && evs[i].sel == sel);
  }

  lemma {:induction false} TargetKind(sel: Selection, ev: ClipEvent)
    requires IsTarget(sel, ev)
    ensures ev.Gone? || (ev.Selected? && ev.sel == sel)
  {
  }

  lemma {:induction false} SkipSelection(ev: ClipEvent, evs: seq<ClipEvent>, id: U32)
    requires ev.Selected?
    ensures MimesFor([ev] + evs, id) == MimesFor(evs, id)
  {
    assert ([ev] + evs)[1..] == evs;
  }

  /** The library's wait over these batches ends with the types the handcrafted client lists. */
  ghost predicate Agree(sel: Selection, batches: seq<seq<ClipEvent>>) {
    var end := LibWait(sel, NewPaste().ext, batches);
    end.Some? && LibTypes(sel, end.value) == SelectedTypes(sel, Flatten(batches))
  }

  /** The offer the trace selects gets another type after its selection. */
  predicate LateType(sel: Selection, evs: seq<ClipEvent>)
    requires FirstTarget(sel, evs) < |evs|
  {
    var k := FirstTarget(sel, evs);
    SelectedTypes(sel, evs).Some? && MimesFor(evs[k + 1..], evs[k].id) != []
  }

  /** On traces that select once the two implementations agree however the library batches the trace exactly if no type
      comes late; a late one separates them as soon as it shares a batch with the selection. */
  lemma {:induction false} AgreeIffNothingLate(sel: Selection, evs: seq<ClipEvent>)
    requires FirstTarget(sel, evs) < |evs| && SelectsOnce(sel, evs)
    ensures (forall batches | Flatten(batches) == evs :: Agree(sel, batches)) <==> !LateType(sel, evs)
  {
    hide LibWait, LibTypes, SelectedTypes, MimesFor, Flatten, LibApplyAll, LateType;
    if LateType(sel, evs) {
      OneBatchIsAll(evs);
      LateTypeShows(sel, evs);
    } else {
      forall batches | Flatten(batches) == evs ensures Agree(sel, batches) {
        NothingLateAgrees(sel, evs, batches);
      }
    }
  }

  lemma {:induction false} SomethingSelected(sel: Selection, evs: seq<ClipEvent>)
    requires FirstTarget(sel, evs) < |evs| && SelectedTypes(sel, evs).Some?
    ensures evs[FirstTarget(sel, evs)].Selected?
  {
  }

  lemma {:induction false} OneBatchIsAll(evs: seq<ClipEvent>)
    ensures Flatten([evs]) == evs
  {
    assert [evs][1..] == [];
    assert evs + [] == evs;
  }

  /** All in one batch, the library has seen the late types when its wait ends. */
  lemma {:induction false} LateTypeShows(sel: Selection, evs: seq<ClipEvent>)
    requires FirstTarget(sel, evs) < |evs| && SelectsOnce(sel, evs) && LateType(sel, evs)
    ensures !Agree(sel, [evs])
  {
    hide LibTypes, SelectedTypes, MimesFor, Flatten, LibApplyAll, SelectsOnce;
    var k := FirstTarget(sel, evs);
    OneBatchIsAll(evs);
    LibPicks(sel, evs, |evs|);
    OneBatch(sel, evs);
    assert evs[k + 1..|evs|] == evs[k + 1..];
    SomethingSelected(sel, evs);
    var early, late := SelectedTypes(sel, evs).value, MimesFor(evs[k + 1..], evs[k].id);
    assert |early + late| > |early|;
  }

  lemma {:induction false} NothingLateAgrees(sel: Selection, evs: seq<ClipEvent>, batches: seq<seq<ClipEvent>>)
    requires Flatten(batches) == evs
    requires FirstTarget(sel, evs) < |evs| && SelectsOnce(sel, evs) && !LateType(sel, evs)
    ensures Agree(sel, batches)
  {
    hide LibWait, LibTypes, SelectedTypes, MimesFor, Flatten, LibApplyAll;
    var k := FirstTarget(sel, evs);
    var n := WaitEndsBehindTarget(sel, NewPaste().ext, batches);
    LibPicks(sel, evs, n);
    if SelectedTypes(sel, evs).Some? {
      SomethingSelected(sel, evs);
      assert evs[k + 1..] == evs[k + 1..n] + evs[n..];
      MimesForConcat(evs[k + 1..n], evs[n..], evs[k].id);
      var mimes := SelectedTypes(sel, evs).value;
      assert mimes + [] == mimes;
    }
  }

  lemma {:induction false} MimesForConcat(a: seq<ClipEvent>, b: seq<ClipEvent>, id: U32)
    ensures MimesFor(a + b, id) == MimesFor(a, id) + MimesFor(b, id)
    decreases |a|
  {
    if a == [] {
      assert a + b == b;
    } else {
      assert (a + b)[1..] == a[1..] + b;
      MimesForConcat(a[1..], b, id);
      Assoc(if a[0].OfferMime? && a[0].id == id then [a[0].mime] else [], MimesFor(a[1..], id), MimesFor(b, id));
    }
  }

  /** The smallest such trace. */
  lemma {:induction false} LateTypeSeparatesThem(id: U32, early: Name, late: Name)
    requires id != 0
    ensures var evs := [OfferMade(id), OfferMime(id, early), Selected(Regular, id), OfferMime(id, late)];
            && SelectedTypes(Regular, evs) == Some([early])
            && LibWait(Regular, NewPaste().ext, [evs]).Some?
            && LibTypes(Regular, LibWait(Regular, NewPaste().ext, [evs]).value) == Some([early, late])
  {
    var evs := [OfferMade(id), OfferMime(id, early), Selected(Regular, id), OfferMime(id, late)];
    assert evs[1..] == [evs[1], evs[2], evs[3]] && evs[1..][1..] == [evs[2], evs[3]];
    assert FirstTarget(Regular, evs[1..][1..]) == 0;
    assert FirstTarget(Regular, evs) == 2;
    assert evs[..2] == [evs[0], evs[1]] && evs[..2][1..] == [evs[1]];
    OneType(id, early);
    OneType(id, late);
    assert OfferTale(evs[..2], id) == Some(MimesFor([evs[1]], id));
    assert evs[3..4] == [evs[3]];
    LibPicks(Regular, evs, 4);
    OneBatch(Regular, evs);
    assert [early] + [late] == [early, late];
  }

  lemma {:induction false} OneType(id: U32, mime: Name)
    ensures MimesFor([OfferMime(id, mime)], id) == [mime]
  {
    assert [OfferMime(id, mime)][1..] == [];
    assert [mime] + [] == [mime];
  }

  lemma {:induction false} OneBatch(sel: Selection, evs: seq<ClipEvent>)
    requires FirstTarget(sel, evs) < |evs|
    ensures LibWait(sel, NewPaste().ext, [evs]) == Some(LibApplyAll(NewPaste().ext, evs[..|evs|]))
  {
    hide LibApplyAll, IsTarget;
    assert evs[..|evs|] == evs;
    TargetByBatch(sel, NewPaste().ext, evs);
    assert [evs][1..] == [];
  }

  // ---- The handlers in place ----------------------------------------------

  /** An offer the library's proxy object stands for; its list of types grows in place. */
  class PendingOffer {
    const proxy: U32
    var mimes: seq<Name>

    constructor (proxy: U32)
      ensures this.proxy == proxy && mimes == []
    {
      this.proxy := proxy;
      mimes := [];
    }
  }

  ghost function Records(offers: seq<PendingOffer>): (r: seq<OfferRec>)
    reads offers
    ensures |r| == |offers|
    ensures forall i | 0 <= i < |offers| :: r[i] == OfferRec(offers[i].proxy, offers[i].mimes)
  {
    seq(|offers|, i requires 0 <= i < |offers| reads offers => OfferRec(offers[i].proxy, offers[i].mimes))
  }

  /** The first record of an id, by position. */
  lemma {:induction false} FindByPosition(recs: seq<OfferRec>, id: U32, i: nat)
    requires i < |recs| && recs[i].id == id && forall j | 0 <= j < i :: recs[j].id != id
    ensures FindOffer(recs, id) == Some(recs[i])
    ensures forall mime :: AddMime(recs, id, mime) == recs[i := recs[i].(mimes := recs[i].mimes + [mime])]
    decreases i
  {
    if i > 0 {
      FindByPosition(recs[1..], id, i - 1);
      forall mime ensures AddMime(recs, id, mime) == recs[i := recs[i].(mimes := recs[i].mimes + [mime])] {
        assert [recs[0]] + recs[1..][i - 1 := recs[i].(mimes := recs[i].mimes + [mime])]
            == recs[i := recs[i].(mimes := recs[i].mimes + [mime])];
      }
    }
  }

  lemma {:induction false} FindNowhere(recs: seq<OfferRec>, id: U32)
    requires forall j | 0 <= j < |recs| :: recs[j].id != id
    ensures FindOffer(recs, id).None?
    ensures forall mime :: AddMime(recs, id, mime) == recs
    decreases |recs|
  {
    if recs != [] {
      FindNowhere(recs[1..], id);
      assert [recs[0]] + recs[1..] == recs;
    }
  }

  /** A pointer is null or leads to the first offer with its proxy. */
  ghost predicate PointsInto(offers: seq<PendingOffer>, o: PendingOffer?) {
    o != null ==> o.proxy != 0 && exists i :: FirstOfProxy(offers, o, i)
  }

  ghost predicate FirstOfProxy(offers: seq<PendingOffer>, o: PendingOffer, i: int) {
    0 <= i < |offers| && offers[i] == o && forall j | 0 <= j < i :: offers[j].proxy != o.proxy
  }

  lemma {:induction false} PointsIntoMore(offers: seq<PendingOffer>, e: PendingOffer, o: PendingOffer?)
    requires PointsInto(offers, o)
    ensures PointsInto(offers + [e], o)
  {
    if o != null {
      var i :| FirstOfProxy(offers, o, i);
      assert FirstOfProxy(offers + [e], o, i);
    }
  }

  /** The state the library's callbacks share. The current offers are pointers into `offers`. */
  class LibState {
    var offers: seq<PendingOffer>
    var currentRegular: PendingOffer?
    var currentPrimary: PendingOffer?
    var gotRegular: bool
    var gotPrimary: bool
    var finished: bool

    ghost predicate Valid()
      reads this
    {
      && (forall i, j | 0 <= i < j < |offers| :: offers[i] != offers[j])
      && PointsInto(offers, currentRegular) && PointsInto(offers, currentPrimary)
    }

    ghost function Value(): PasteState
      reads this, offers
    {
      PasteState(Records(offers),
                 if currentRegular == null then 0 else currentRegular.proxy,
                 if currentPrimary == null then 0 else currentPrimary.proxy,
                 gotRegular, gotPrimary, finished, [], [])
    }

    constructor ()
      ensures Valid() && Value() == NewPaste().ext && offers == []
    {
      offers, currentRegular, currentPrimary := [], null, null;
      gotRegular, gotPrimary, finished := false, false, false;
    }

    /** The offer of a proxy, null for the null proxy or an unknown one. */
    method FindProxy(proxy: U32) returns (o: PendingOffer?)
      requires Valid()
      ensures PointsInto(offers, o)
      ensures (if o == null then 0 else o.proxy) == Pointer(Value(), proxy)
    {
      if proxy == 0 {
        return null;
      }
      for i := 0 to |offers|
        invariant forall j | 0 <= j < i :: offers[j].proxy != proxy
      {
        if offers[i].proxy == proxy {
          FindByPosition(Records(offers), proxy, i);
          assert FirstOfProxy(offers, offers[i], i);
          return offers[i];
        }
      }
      FindNowhere(Records(offers), proxy);
      o := null;
    }

    method OnDataOffer(proxy: U32)
      requires Valid()
      modifies this
      ensures Valid() && Value() == LibApply(old(Value()), OfferMade(proxy))
      ensures forall o | o in offers :: o in old(offers) || fresh(o)
    {
      var e := new PendingOffer(proxy);
      ghost var was := offers;
      offers := offers + [e];
      PointsIntoMore(was, e, currentRegular);
      PointsIntoMore(was, e, currentPrimary);
      assert Records(offers) == Records(was) + [OfferRec(proxy, [])];
    }

    method OnOfferMime(proxy: U32, mime: Name)
      requires Valid()
      modifies offers
      ensures Valid() && Value() == LibApply(old(Value()), OfferMime(proxy, mime))
    {
      for i := 0 to |offers|
        invariant forall j | 0 <= j < i :: offers[j].proxy != proxy
        invariant Value() == old(Value())
      {
        if offers[i].proxy == proxy {
          FindByPosition(Records(offers), proxy, i);
          ghost var was := Records(offers);
          offers[i].mimes := offers[i].mimes + [mime];
          assert Records(offers) == was[i := was[i].(mimes := was[i].mimes + [mime])];
          return;
        }
      }
      FindNowhere(Records(offers), proxy);
    }

    method OnSelection(proxy: U32)
      requires Valid()
      modifies this`currentRegular, this`gotRegular
      ensures Valid() && Value() == LibApply(old(Value()), Selected(Regular, proxy))
    {
      var o := FindProxy(proxy);
      currentRegular, gotRegular := o, true;
    }

    method OnPrimarySelection(proxy: U32)
      requires Valid()
      modifies this`currentPrimary, this`gotPrimary
      ensures Valid() && Value() == LibApply(old(Value()), Selected(Primary, proxy))
    {
      var o := FindProxy(proxy);
      currentPrimary, gotPrimary := o, true;
    }

    method OnFinished()
      requires Valid()
      modifies this`finished
      ensures Valid() && Value() == LibApply(old(Value()), Gone)
    {
      finished := true;
    }

    method Handle(ev: ClipEvent)
      requires Valid()
      modifies this, offers
      ensures Valid() && Value() == LibApply(old(Value()), ev)
      ensures forall o | o in offers :: o in old(offers) || fresh(o)
    {
      match ev {
        case OfferMade(id) => OnDataOffer(id);
        case OfferMime(id, mime) => OnOfferMime(id, mime);
        case Selected(Regular, id) => OnSelection(id);
        case Selected(Primary, id) => OnPrimarySelection(id);
        case Gone => OnFinished();
        case Unrelated =>
      }
    }

    /** Dispatches batches until the goal holds; false when the connection ends first. */
    method Wait(sel: Selection, batches: seq<seq<ClipEvent>>) returns (ok: bool)
      requires Valid()
      modifies this, offers
      ensures Valid()
      ensures LibWait(sel, old(Value()), batches) == if ok then Some(Value()) else None
    {
      hide LibApply;
      var next := 0;
      while !(finished || (if sel == Primary then gotPrimary else gotRegular))
        invariant next <= |batches| && Valid()
        invariant LibWait(sel, Value(), batches[next..]) == LibWait(sel, old(Value()), batches)
        invariant forall o | o in offers :: o in old(offers) || fresh(o)
        decreases |batches| - next
      {
        if next == |batches| {
          return false;
        }
        var batch := batches[next];
        assert batches[next..][1..] == batches[next + 1..];
        ghost var start := Value();
        for i := 0 to |batch|
          invariant Valid()
          invariant LibApplyAll(Value(), batch[i..]) == LibApplyAll(start, batch)
          invariant forall o | o in offers :: o in old(offers) || fresh(o)
        {
          assert batch[i..][1..] == batch[i + 1..];
          assert forall k | 0 <= k < |offers| :: offers[k] in old(offers) || fresh(offers[k]);
          Handle(batch[i]);
        }
        next := next + 1;
      }
      return true;
    }
  }
}
