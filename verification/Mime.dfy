/** MIME type names and the choice of the type to receive (src/core/mime.cpp). */
module Mime {
  import opened Bytes

  type Name = seq<Byte>

  const TEXT_PLAIN_UTF8: Name := Ascii("text/plain;charset=utf-8")
  const TEXT_PLAIN: Name := Ascii("text/plain")
  const UTF8_STRING: Name := Ascii("UTF8_STRING")
  const TEXT: Name := Ascii("TEXT")
  const STRING: Name := Ascii("STRING")
  const TEXT_PREFIX: Name := Ascii("text/")

  predicate StartsWith(s: Name, prefix: Name) {
    |s| >= |prefix| && s[..|prefix|] == prefix
  }

  predicate IsTextual(m: Name) {
    StartsWith(m, TEXT_PREFIX) || m == UTF8_STRING || m == TEXT || m == STRING
  }

  predicate PrefixEitherWay(m: Name, prefer: Name) {
    StartsWith(m, prefer) || StartsWith(prefer, m)
  }

  /** One scan: the first element satisfying p. */
  function FirstWhere(av: seq<Name>, p: Name -> bool): (r: Option<Name>)
    ensures r.None? <==> forall m | m in av :: !p(m)
    ensures r.Some? ==> FirstIndexOf(av, p, r.value)
  {
    if av == [] then None
    else if p(av[0]) then
      assert FirstAt(av, p, av[0], 0);
      Some(av[0])
    else
      var r := FirstWhere(av[1..], p);
      assert av == [av[0]] + av[1..];
      assert r.Some? ==> forall i | FirstAt(av[1..], p, r.value, i) :: FirstAt(av, p, r.value, i + 1);
      r
  }

  /** m sits at position i and is the first element satisfying p. */
  ghost predicate FirstAt(av: seq<Name>, p: Name -> bool, m: Name, i: int) {
    0 <= i < |av| && av[i] == m && p(m) && forall j | 0 <= j < i :: !p(av[j])
  }

  ghost predicate FirstIndexOf(av: seq<Name>, p: Name -> bool, m: Name) {
    exists i :: FirstAt(av, p, m, i)
  }

  /** The tests of the successive scans. */
  function Exactly(name: Name): Name -> bool { m => m == name }

  function Near(prefer: Name): Name -> bool { m => PrefixEitherWay(m, prefer) }

  function Beginning(prefix: Name): Name -> bool { m => StartsWith(m, prefix) }

  /** choose_mime: successive scans, each returning its first hit. */
  function ChooseMime(av: seq<Name>, prefer: Name): Name {
    if av == [] then []
    else if prefer != [] && FirstWhere(av, Exactly(prefer)).Some? then FirstWhere(av, Exactly(prefer)).value
    else if prefer != [] && FirstWhere(av, Near(prefer)).Some? then FirstWhere(av, Near(prefer)).value
    else if FirstWhere(av, Exactly(TEXT_PLAIN_UTF8)).Some? then FirstWhere(av, Exactly(TEXT_PLAIN_UTF8)).value
    else if FirstWhere(av, Exactly(UTF8_STRING)).Some? then FirstWhere(av, Exactly(UTF8_STRING)).value
    else if FirstWhere(av, Beginning(TEXT_PREFIX)).Some? then FirstWhere(av, Beginning(TEXT_PREFIX)).value
    else av[0]
  }

  /** How far a type is from the user's wish: the single scale the scans implement. */
  function Rank(m: Name, prefer: Name): nat {
    if prefer != [] && m == prefer then 0
    else if prefer != [] && (prefer <= m || m <= prefer) then 1
    else if m == Ascii("text/plain;charset=utf-8") then 2
    else if m == Ascii("UTF8_STRING") then 3
    else if Ascii("text/") <= m then 4
    else 5
  }

  /** The tests of the scans, without their definitions. */
  lemma {:induction false} ScansTest(m: Name, n: Name)
    ensures Exactly(n)(m) <==> m == n
    ensures Near(n)(m) <==> n <= m || m <= n
    ensures Beginning(n)(m) <==> n <= m
    ensures IsTextual(m) <==>
            Ascii("text/") <= m || m in {Ascii("UTF8_STRING"), Ascii("TEXT"), Ascii("STRING")}
  {
  }

  /** The rank in terms of the scans' tests. */
  function RankByTests(m: Name, prefer: Name): nat {
    if prefer != [] && Exactly(prefer)(m) then 0
    else if prefer != [] && Near(prefer)(m) then 1
    else if Exactly(TEXT_PLAIN_UTF8)(m) then 2
    else if Exactly(UTF8_STRING)(m) then 3
    else if Beginning(TEXT_PREFIX)(m) then 4
    else 5
  }

  lemma {:induction false} RankIsByTests(m: Name, prefer: Name)
    ensures Rank(m, prefer) == RankByTests(m, prefer)
  {
    hide Ascii;
    ScansTest(m, prefer);
    ScansTest(m, TEXT_PREFIX);
  }

  /** m is the first element of av whose rank no other element beats. */
  ghost predicate StableArgMin(av: seq<Name>, prefer: Name, m: Name) {
    exists i :: ArgMinAt(av, prefer, m, i)
  }

  ghost predicate ArgMinAt(av: seq<Name>, prefer: Name, m: Name, i: int) {
    && 0 <= i < |av| && av[i] == m
    && (forall j | 0 <= j < |av| :: Rank(m, prefer) <= Rank(av[j], prefer))
    && (forall j | 0 <= j < i :: Rank(m, prefer) < Rank(av[j], prefer))
  }

  /** A scan for one rank, once no better rank occurs, finds the stable minimum. */
  lemma {:induction false} ScanIsArgMin(av: seq<Name>, prefer: Name, p: Name -> bool, m: Name, rank: nat)
    requires FirstIndexOf(av, p, m)
    requires forall j | 0 <= j < |av| :: rank <= Rank(av[j], prefer)
    requires forall j | 0 <= j < |av| :: p(av[j]) <==> Rank(av[j], prefer) == rank
    ensures StableArgMin(av, prefer, m)
  {
    var i :| FirstAt(av, p, m, i);
    assert ArgMinAt(av, prefer, m, i);
  }

  lemma {:induction false} MissedScan(av: seq<Name>, p: Name -> bool)
    requires FirstWhere(av, p).None?
    ensures forall j | 0 <= j < |av| :: !p(av[j])
  {
    assert forall j | 0 <= j < |av| :: av[j] in av;
  }

  lemma {:induction false} ArgMinIsUnique(av: seq<Name>, prefer: Name, m: Name, m': Name)
    requires StableArgMin(av, prefer, m) && StableArgMin(av, prefer, m')
    ensures m == m'
  {
    hide Rank;
    var i :| ArgMinAt(av, prefer, m, i);
    var i' :| ArgMinAt(av, prefer, m', i');
    assert i == i';
  }

  lemma {:induction false} ChosenIsStableArgMin(av: seq<Name>, prefer: Name)
    requires av != []
    ensures StableArgMin(av, prefer, ChooseMime(av, prefer))
  {
    hide StartsWith, PrefixEitherWay, FirstWhere, TEXT_PLAIN_UTF8, UTF8_STRING, TEXT_PREFIX, Rank;
    var r := ChooseMime(av, prefer);
    forall m ensures Rank(m, prefer) == RankByTests(m, prefer) { RankIsByTests(m, prefer); }
    if prefer != [] && FirstWhere(av, Exactly(prefer)).Some? {
      ScanIsArgMin(av, prefer, Exactly(prefer), r, 0);
      return;
    }
    if prefer != [] {
      MissedScan(av, Exactly(prefer));
      if FirstWhere(av, Near(prefer)).Some? {
        ScanIsArgMin(av, prefer, Near(prefer), r, 1);
        return;
      }
      MissedScan(av, Near(prefer));
    }
    WithoutPreferenceIsArgMin(av, prefer);
  }

  /** The scans that ignore the preference, once it has matched nothing. */
  lemma {:induction false} WithoutPreferenceIsArgMin(av: seq<Name>, prefer: Name)
    requires av != []
    requires prefer != [] ==> forall j | 0 <= j < |av| :: !Exactly(prefer)(av[j]) && !Near(prefer)(av[j])
    ensures StableArgMin(av, prefer, ChooseMime(av, prefer))
  {
    hide StartsWith, PrefixEitherWay, FirstWhere, TEXT_PLAIN_UTF8, UTF8_STRING, TEXT_PREFIX, Rank;
    var r := ChooseMime(av, prefer);
    forall m ensures Rank(m, prefer) == RankByTests(m, prefer) { RankIsByTests(m, prefer); }
    if FirstWhere(av, Exactly(TEXT_PLAIN_UTF8)).Some? {
      ScanIsArgMin(av, prefer, Exactly(TEXT_PLAIN_UTF8), r, 2);
      return;
    }
    MissedScan(av, Exactly(TEXT_PLAIN_UTF8));
    if FirstWhere(av, Exactly(UTF8_STRING)).Some? {
      ScanIsArgMin(av, prefer, Exactly(UTF8_STRING), r, 3);
      return;
    }
    MissedScan(av, Exactly(UTF8_STRING));
    if FirstWhere(av, Beginning(TEXT_PREFIX)).Some? {
      ScanIsArgMin(av, prefer, Beginning(TEXT_PREFIX), r, 4);
      return;
    }
    MissedScan(av, Beginning(TEXT_PREFIX));
    assert ArgMinAt(av, prefer, r, 0);
  }

  /** The successive scans compute the one stable minimum of the rank, and nothing else is one. */
  lemma {:induction false} ChooseMimeIsStableArgMin(av: seq<Name>, prefer: Name, m: Name)
    requires av != []
    ensures m == ChooseMime(av, prefer) <==> StableArgMin(av, prefer, m)
    ensures ChooseMime(av, prefer) in av
    ensures prefer in av && prefer != [] ==> ChooseMime(av, prefer) == prefer
  {
    hide ChooseMime, Rank;
    var r := ChooseMime(av, prefer);
    ChosenIsStableArgMin(av, prefer);
    if StableArgMin(av, prefer, m) {
      ArgMinIsUnique(av, prefer, m, r);
    }
    if prefer in av && prefer != [] {
      ExactPreferenceWins(av, prefer);
    }
  }

  lemma {:induction false} ExactPreferenceWins(av: seq<Name>, prefer: Name)
    requires prefer in av && prefer != []
    ensures ChooseMime(av, prefer) == prefer
  {
    assert Exactly(prefer)(prefer);
  }
}
