/**
 * Reference counts and use lists of kernel modules, under any interleaving of
 * their atomic steps.
 */
module ModuleRefs {

  datatype Status = Coming | Live | Going

  /**
   * A module's fields, and beside them who accounts for its reference count:
   * the base reference, the hold during initialisation, and other users. No
   * step decides anything by those last three.
   */
  datatype Mod = Mod(status: Status, refcnt: int, sources: seq<nat>, targets: seq<nat>, base: nat, init: nat,
      users: nat)

  /** Unloading under the module mutex: nobody, a base reference lent for the test, or a stop that has succeeded. */
  datatype Stop = Idle | Lent(m: nat) | Stopped(m: nat)

  /** All modules, and for each thread the module it has found live but not yet got. */
  datatype State = State(mods: map<nat, Mod>, checked: map<nat, nat>, stop: Stop)

  const EMPTY := State(map[], map[], Idle)

  // ---- The atomic steps -------------------------------------------------------------

  /** Decrement unless that would go below zero. */
  function DecIfPositive(refcnt: int): int {
    if refcnt > 0 then refcnt - 1 else refcnt
  }

  function Without(s: seq<nat>, x: nat): (r: seq<nat>)
    ensures forall y :: y in r <==> y in s && y != x
    ensures x !in s ==> r == s
  {
    if s == [] then []
    else
      assert s == [s[0]] + s[1..];
      if s[0] == x then Without(s[1..], x) else [s[0]] + Without(s[1..], x)
  }

  function Set(s: State, m: nat, v: Mod): State {
    s.(mods := s.mods[m := v])
  }

  function Load(s: State, m: nat): (State, bool) {
    if m in s.mods then (s, false) else (Set(s, m, Mod(Coming, 2, [], [], 1, 1, 0)), true)
  }

  function GoLive(s: State, m: nat): (State, bool) {
    if m in s.mods && s.mods[m].status == Coming && s.mods[m].init == 1
    then (Set(s, m, s.mods[m].(status := Live)), true) else (s, false)
  }

  /** A failed initialisation: the module is going, and its own hold is put by the next step. */
  function FailInit(s: State, m: nat): (State, bool) {
    if m in s.mods && s.mods[m].status == Coming && s.mods[m].init == 1
    then (Set(s, m, s.mods[m].(status := Going)), true) else (s, false)
  }

  /** The put of the module's own hold at the end of its initialisation, whether that failed or not. */
  function DropInit(s: State, m: nat): (State, bool) {
    if m in s.mods && s.mods[m].status != Coming && s.mods[m].init == 1
    then (Set(s, m, s.mods[m].(refcnt := DecIfPositive(s.mods[m].refcnt), init := 0)), true) else (s, false)
  }

  /** First half of try_module_get: thread t looks whether the module is alive. */
  function CheckLive(s: State, t: nat, m: nat): (State, bool) {
    if m in s.mods && s.mods[m].status != Going then (s.(checked := s.checked[t := m]), true) else (s, false)
  }

  /** Second half: increment unless the count is zero. */
  function IncNotZero(s: State, t: nat): (State, bool) {
    if t !in s.checked then (s, false)
    else
      var m := s.checked[t];
      var s' := s.(checked := s.checked - {t});
      if m in s.mods && s.mods[m].refcnt != 0
      then (Set(s', m, s.mods[m].(refcnt := s.mods[m].refcnt + 1, users := s.mods[m].users + 1)), true)
      else (s', false)
  }

  /** Who holds a module: other users, the module itself while it initialises, and the modules that use it. */
  function Holders(v: Mod): nat {
    v.users + v.init + |v.sources|
  }

  /** __module_get, which only a holder may call. */
  function GetAgain(s: State, m: nat): (State, bool) {
    if m in s.mods && Holders(s.mods[m]) > 0
    then (Set(s, m, s.mods[m].(refcnt := s.mods[m].refcnt + 1, users := s.mods[m].users + 1)), true) else (s, false)
  }

  /** module_put by a holder. */
  function PutBack(s: State, m: nat): (State, bool) {
    if m in s.mods && s.mods[m].users > 0
    then (Set(s, m, s.mods[m].(refcnt := DecIfPositive(s.mods[m].refcnt), users := s.mods[m].users - 1)), true)
    else (s, false)
  }

  /** ref_module: a starts to use b; the module mutex is held, so b stays live meanwhile. */
  function Ref(s: State, a: nat, b: nat, memory: bool): (State, bool) {
    if s.stop != Idle || a !in s.mods || b !in s.mods then (s, false)
    else if a in s.mods[b].sources then (s, true)
    else if s.mods[b].status != Live || s.mods[b].refcnt == 0 || !memory then (s, false)
    else
      var s1 := Set(s, b, s.mods[b].(refcnt := s.mods[b].refcnt + 1, sources := [a] + s.mods[b].sources));
      (Set(s1, a, s1.mods[a].(targets := [b] + s1.mods[a].targets)), true)
  }

  /** delete_module up to the first atomic operation of try_release_module_ref. */
  function StopBegin(s: State, m: nat): (State, bool) {
    if s.stop != Idle || m !in s.mods || s.mods[m].sources != [] || s.mods[m].status != Live then (s, false)
    else
      var v := s.mods[m].(refcnt := s.mods[m].refcnt - 1, base := 0);
      (Set(s, m, v).(stop := if v.refcnt == 0 then Stopped(m) else Lent(m)), v.refcnt == 0)
  }

  /** Its second atomic operation: take the base reference back unless the count has become zero. */
  function StopFinish(s: State, force: bool): (State, bool) {
    if !s.stop.Lent? || s.stop.m !in s.mods then (s, false)
    else
      var m := s.stop.m;
      if s.mods[m].refcnt == 0 then (s.(stop := Stopped(m)), true)
      else
        var s1 := Set(s, m, s.mods[m].(refcnt := s.mods[m].refcnt + 1, base := 1));
        if force then (s1.(stop := Stopped(m)), true) else (s1.(stop := Idle), false)
  }

  function MarkGoing(s: State): (State, bool) {
    if !s.stop.Stopped? || s.stop.m !in s.mods then (s, false)
    else (Set(s, s.stop.m, s.mods[s.stop.m].(status := Going)).(stop := Idle), true)
  }

  /** Ends one use: puts the target and takes the use off both lists. */
  function Unuse(s: State, a: nat, b: nat): State
    requires a in s.mods && b in s.mods
  {
    var s1 := Set(s, b, s.mods[b].(refcnt := DecIfPositive(s.mods[b].refcnt), sources :=
        Without(s.mods[b].sources, a)));
    Set(s1, a, s1.mods[a].(targets := Without(s1.mods[a].targets, b)))
  }

  // ---- What always holds -----------------------------------------------------------------

  ghost predicate NoDup(s: seq<nat>) {
    forall i, j :: 0 <= i < j < |s| ==> s[i] != s[j]
  }

  /** The count is the base reference plus everyone who holds one. */
  ghost predicate Counts(v: Mod) {
    v.base <= 1 && v.init <= 1 && v.refcnt == v.base + Holders(v)
  }

  /** Nothing is left that holds the module, not even the base reference. */
  ghost predicate Released(s: State, m: nat) {
    m in s.mods && s.mods[m].refcnt == 0 && s.mods[m].base == 0 && s.stop != Lent(m)
  }

  /** a uses b: seen from b's list of sources, and from a's list of targets. */
  ghost predicate Sourced(s: State, a: nat, b: nat) { b in s.mods && a in s.mods[b].sources }

  ghost predicate Targeted(s: State, a: nat, b: nat) { a in s.mods && b in s.mods[a].targets }

  ghost predicate Inv(s: State) {
    && (forall m :: m in s.mods ==> Counts(s.mods[m]) && NoDup(s.mods[m].sources) && NoDup(s.mods[m].targets))
    && (forall a, b :: Sourced(s, a, b) <==> Targeted(s, a, b))
    && (forall m :: m in s.mods && s.mods[m].status != Live ==> s.mods[m].sources == [])
    && (forall m :: m in s.mods && s.mods[m].base == 0 ==>
          s.stop == Lent(m) || (s.mods[m].refcnt == 0 && (s.stop == Stopped(m) || s.mods[m].status == Going)))
    && (s.stop != Idle ==>
          s.stop.m in s.mods && s.mods[s.stop.m].sources == [] && s.mods[s.stop.m].status == Live)
    && (s.stop.Lent? ==> s.mods[s.stop.m].base == 0)
    && (forall m :: m in s.mods && s.mods[m].status == Coming ==> s.mods[m].init == 1 && s.mods[m].base == 1)
  }

  // ---- Every step keeps it ------------------------------------------------------------------

  lemma LoadKeeps(s: State, m: nat)
    requires Inv(s)
    ensures Inv(Load(s, m).0)
  {
    var s' := Load(s, m).0;
    forall a, b ensures Sourced(s', a, b) <==> Targeted(s', a, b) {
      assert Sourced(s, a, b) <==> Targeted(s, a, b);
      assert !Sourced(s, m, b) ==> Sourced(s', a, b) == Sourced(s, a, b);
    }
  }

  /** A step that changes one module's counts and status, but no list. */
  lemma OneChanges(s: State, s': State, m: nat, v: Mod)
    requires Inv(s) && m in s.mods && s'.mods == s.mods[m := v] && s'.stop == s.stop
    requires v.sources == s.mods[m].sources && v.targets == s.mods[m].targets && v.base == s.mods[m].base
    requires Counts(v) && (v.status != s.mods[m].status ==> s.mods[m].status == Coming && v.sources == [])
    requires v.base == 0 ==> v.refcnt == 0 || s.stop == Lent(m)
    requires v.status == Coming ==> v.init == 1
    ensures Inv(s')
  {
    forall a, b ensures Sourced(s', a, b) <==> Targeted(s', a, b) {
      assert Sourced(s, a, b) <==> Targeted(s, a, b);
    }
  }

  lemma GoLiveKeeps(s: State, m: nat)
    requires Inv(s)
    ensures Inv(GoLive(s, m).0)
  {
    if GoLive(s, m).1 {
      OneChanges(s, GoLive(s, m).0, m, GoLive(s, m).0.mods[m]);
    }
  }

  lemma FailInitKeeps(s: State, m: nat)
    requires Inv(s)
    ensures Inv(FailInit(s, m).0)
  {
    if FailInit(s, m).1 {
      OneChanges(s, FailInit(s, m).0, m, FailInit(s, m).0.mods[m]);
    }
  }

  lemma DropInitKeeps(s: State, m: nat)
    requires Inv(s)
    ensures Inv(DropInit(s, m).0)
  {
    if DropInit(s, m).1 {
      OneChanges(s, DropInit(s, m).0, m, DropInit(s, m).0.mods[m]);
    }
  }

  lemma CheckLiveKeeps(s: State, t: nat, m: nat)
    requires Inv(s)
    ensures Inv(CheckLive(s, t, m).0)
  {
    var s' := CheckLive(s, t, m).0;
    forall a, b ensures Sourced(s', a, b) <==> Targeted(s', a, b) {
      assert Sourced(s, a, b) <==> Targeted(s, a, b);
    }
  }

  lemma IncNotZeroKeeps(s: State, t: nat)
    requires Inv(s)
    ensures Inv(IncNotZero(s, t).0)
  {
    var s' := IncNotZero(s, t).0;
    if IncNotZero(s, t).1 {
      OneChanges(s, s', s.checked[t], s'.mods[s.checked[t]]);
    } else {
      forall a, b ensures Sourced(s', a, b) <==> Targeted(s', a, b) {
        assert Sourced(s, a, b) <==> Targeted(s, a, b);
      }
    }
  }

  lemma GetAgainKeeps(s: State, m: nat)
    requires Inv(s)
    ensures Inv(GetAgain(s, m).0)
  {
    if GetAgain(s, m).1 {
      OneChanges(s, GetAgain(s, m).0, m, GetAgain(s, m).0.mods[m]);
    }
  }

  lemma PutBackKeeps(s: State, m: nat)
    requires Inv(s)
    ensures Inv(PutBack(s, m).0)
  {
    if PutBack(s, m).1 {
      OneChanges(s, PutBack(s, m).0, m, PutBack(s, m).0.mods[m]);
    }
  }

  lemma Prepended(x: nat, s: seq<nat>)
    requires NoDup(s) && x !in s
    ensures NoDup([x] + s) && forall y :: y in [x] + s <==> y == x || y in s
  {
  }

  lemma RefKeeps(s: State, a: nat, b: nat, memory: bool)
    requires Inv(s)
    ensures Inv(Ref(s, a, b, memory).0)
  {
    hide NoDup, Sourced, Targeted, Ref;
    var s' := Ref(s, a, b, memory).0;
    if s' != s {
      RefFields(s, s', a, b, memory);
      NotYet(s, a, b);
      Prepended(a, s.mods[b].sources);
      Prepended(b, s.mods[a].targets);
      RefRelation(s, s', a, b);
    }
  }

  /** What a new use changes. */
  lemma RefFields(s: State, s': State, a: nat, b: nat, memory: bool)
    requires s' == Ref(s, a, b, memory).0 && s' != s
    ensures s' == Ref(s, a, b, true).0 && s.stop == s'.stop == Idle && s'.mods.Keys == s.mods.Keys
    ensures a in s.mods && b in s.mods && s.mods[b].status == Live && a !in s.mods[b].sources
    ensures forall m :: m in s.mods ==>
      var v, v' := s.mods[m], s'.mods[m];
      v'.status == v.status && v'.base == v.base && v'.init == v.init && v'.users == v.users
      && v'.refcnt == v.refcnt + (if m == b then 1 else 0)
      && v'.sources == (if m == b then [a] + v.sources else v.sources)
      && v'.targets == (if m == a then [b] + v.targets else v.targets)
  {
  }

  lemma NotYet(s: State, a: nat, b: nat)
    requires Inv(s) && a in s.mods && b in s.mods && a !in s.mods[b].sources
    ensures b !in s.mods[a].targets
  {
    assert !Sourced(s, a, b) && !Targeted(s, a, b);
  }

  lemma RefRelation(s: State, s': State, a: nat, b: nat)
    requires s' == Ref(s, a, b, true).0 && forall x, y :: Sourced(s, x, y) <==> Targeted(s, x, y)
    ensures forall x, y :: Sourced(s', x, y) <==> Targeted(s', x, y)
  {
    if s' != s {
      forall x, y ensures Sourced(s', x, y) <==> Targeted(s', x, y) {
        assert Sourced(s, x, y) <==> Targeted(s, x, y);
        assert Sourced(s', x, y) <==> Sourced(s, x, y) || (x == a && y == b);
        assert Targeted(s', x, y) <==> Targeted(s, x, y) || (x == a && y == b);
      }
    }
  }

  lemma StopBeginKeeps(s: State, m: nat)
    requires Inv(s)
    ensures Inv(StopBegin(s, m).0)
  {
    var s' := StopBegin(s, m).0;
    forall a, b ensures Sourced(s', a, b) <==> Targeted(s', a, b) {
      assert Sourced(s, a, b) <==> Targeted(s, a, b);
    }
  }

  lemma StopFinishKeeps(s: State, force: bool)
    requires Inv(s)
    ensures Inv(StopFinish(s, force).0)
  {
    hide NoDup;
    var s' := StopFinish(s, force).0;
    forall a, b ensures Sourced(s', a, b) <==> Targeted(s', a, b) {
      assert Sourced(s, a, b) <==> Targeted(s, a, b);
    }
  }

  lemma MarkGoingKeeps(s: State)
    requires Inv(s)
    ensures Inv(MarkGoing(s).0)
  {
    var s' := MarkGoing(s).0;
    forall a, b ensures Sourced(s', a, b) <==> Targeted(s', a, b) {
      assert Sourced(s, a, b) <==> Targeted(s, a, b);
    }
  }

  // ---- Freeing a module -------------------------------------------------------------------

  lemma {:induction false} WithoutOne(s: seq<nat>, x: nat)
    requires NoDup(s) && x in s
    ensures |Without(s, x)| == |s| - 1 && NoDup(Without(s, x))
  {
    var r := Without(s[1..], x);
    assert s == [s[0]] + s[1..];
    assert NoDup(s[1..]);
    if s[0] == x {
      assert x !in s[1..];
    } else {
      WithoutOne(s[1..], x);
      assert s[0] !in s[1..];
      Prepended(s[0], r);
    }
  }

  lemma UnuseKeeps(s: State, a: nat, b: nat)
    requires Inv(s) && Sourced(s, a, b)
    ensures a in s.mods && Inv(Unuse(s, a, b))
    ensures |Unuse(s, a, b).mods[a].targets| == |s.mods[a].targets| - 1
  {
    hide Without, NoDup, Sourced, Targeted;
    Members(s, a, b);
    WithoutOne(s.mods[b].sources, a);
    WithoutOne(s.mods[a].targets, b);
    UnuseRelation(s, a, b);
    var s' := Unuse(s, a, b);
    forall m | m in s'.mods ensures Counts(s'.mods[m]) && NoDup(s'.mods[m].sources) && NoDup(s'.mods[m].targets) {
      assert m in s.mods;
    }
  }

  lemma Members(s: State, a: nat, b: nat)
    requires Inv(s) && Sourced(s, a, b)
    ensures a in s.mods && b in s.mods && a in s.mods[b].sources && b in s.mods[a].targets
  {
    assert Targeted(s, a, b);
  }

  lemma UnuseRelation(s: State, a: nat, b: nat)
    requires a in s.mods && b in s.mods && forall x, y :: Sourced(s, x, y) <==> Targeted(s, x, y)
    ensures forall x, y :: Sourced(Unuse(s, a, b), x, y) <==> Targeted(Unuse(s, a, b), x, y)
  {
    hide Without;
    var s' := Unuse(s, a, b);
    forall x, y ensures Sourced(s', x, y) <==> Targeted(s', x, y) {
      assert Sourced(s, x, y) <==> Targeted(s, x, y);
      assert Sourced(s', x, y) <==> Sourced(s, x, y) && !(x == a && y == b);
      assert Targeted(s', x, y) <==> Targeted(s, x, y) && !(x == a && y == b);
    }
  }

  /** Ends every use module a makes of others, in the order of its list. */
  function UnuseAll(s: State, a: nat): (s': State)
    requires Inv(s) && a in s.mods
    ensures Inv(s') && s'.mods.Keys == s.mods.Keys && s'.mods[a].targets == [] && s'.stop == s.stop
    decreases |s.mods[a].targets|
  {
    if s.mods[a].targets == [] then s
    else
      var b := s.mods[a].targets[0];
      assert Targeted(s, a, b) && Sourced(s, a, b);
      UnuseKeeps(s, a, b);
      UnuseAll(Unuse(s, a, b), a)
  }

  /** free_module: ends the uses of a module that is going, and forgets it. */
  function Free(s: State, m: nat): (State, bool)
    requires Inv(s)
  {
    if s.stop != Idle || m !in s.mods || s.mods[m].status != Going then (s, false)
    else
      var s1 := UnuseAll(s, m);
      (s1.(mods := s1.mods - {m}), true)
  }

  /** Ending uses touches no status, no list of the module's own users, and nobody else's holds. */
  lemma {:induction false} UnuseAllOthers(s: State, a: nat, m: nat)
    requires Inv(s) && a in s.mods && m in s.mods
    ensures var v, v' := s.mods[m], UnuseAll(s, a).mods[m];
      v'.status == v.status && v'.base == v.base && v'.init == v.init && v'.users == v.users
      && (v.sources == [] ==> v'.sources == [] && v'.refcnt == v.refcnt)
    decreases |s.mods[a].targets|
  {
    hide Inv, Without;
    if s.mods[a].targets == [] {
    } else {
      var b := s.mods[a].targets[0];
      FirstTarget(s, a);
      UnuseKeeps(s, a, b);
      UnuseOther(s, a, b, m);
      UnuseAllOthers(Unuse(s, a, b), a, m);
    }
  }

  lemma FirstTarget(s: State, m: nat)
    requires Inv(s) && m in s.mods && s.mods[m].targets != []
    ensures s.mods[m].targets[0] in s.mods && Sourced(s, m, s.mods[m].targets[0])
  {
    assert Targeted(s, m, s.mods[m].targets[0]);
  }

  lemma UnuseOther(s: State, a: nat, b: nat, m: nat)
    requires a in s.mods && m in s.mods && Sourced(s, a, b)
    ensures var v, v' := s.mods[m], Unuse(s, a, b).mods[m];
      v'.status == v.status && v'.base == v.base && v'.init == v.init && v'.users == v.users
      && (v.sources == [] ==> v'.sources == [] && v'.refcnt == v.refcnt)
  {
    hide Without;
  }

  lemma FreeKeeps(s: State, m: nat)
    requires Inv(s)
    ensures Inv(Free(s, m).0)
  {
    var s' := Free(s, m).0;
    if Free(s, m).1 {
      var s1 := UnuseAll(s, m);
      UnuseAllOthers(s, m, m);
      forall x, y ensures Sourced(s', x, y) <==> Targeted(s', x, y) {
        assert Sourced(s1, x, y) <==> Targeted(s1, x, y);
        assert Sourced(s1, x, m) <==> Targeted(s1, x, m);
        assert Sourced(s1, m, y) <==> Targeted(s1, m, y);
      }
    }
  }

  // ---- Runs -----------------------------------------------------------------------------------

  datatype Step =
    | DoLoad(m: nat) | DoGoLive(m: nat) | DoFailInit(m: nat) | DoDropInit(m: nat)
    | DoCheckLive(t: nat, m: nat) | DoIncNotZero(t: nat) | DoGetAgain(m: nat) | DoPutBack(m: nat)
    | DoRef(a: nat, b: nat, memory: bool)
    | DoStopBegin(m: nat) | DoStopFinish(force: bool) | DoMarkGoing | DoFree(m: nat)

  function Take(s: State, step: Step): (State, bool)
    requires Inv(s)
  {
    match step
    case DoLoad(m) => Load(s, m)
    case DoGoLive(m) => GoLive(s, m)
    case DoFailInit(m) => FailInit(s, m)
    case DoDropInit(m) => DropInit(s, m)
    case DoCheckLive(t, m) => CheckLive(s, t, m)
    case DoIncNotZero(t) => IncNotZero(s, t)
    case DoGetAgain(m) => GetAgain(s, m)
    case DoPutBack(m) => PutBack(s, m)
    case DoRef(a, b, memory) => Ref(s, a, b, memory)
    case DoStopBegin(m) => StopBegin(s, m)
    case DoStopFinish(force) => StopFinish(s, force)
    case DoMarkGoing => MarkGoing(s)
    case DoFree(m) => Free(s, m)
  }

  lemma TakeKeeps(s: State, step: Step)
    requires Inv(s)
    ensures Inv(Take(s, step).0)
  {
    hide Inv, Load, GoLive, FailInit, DropInit, CheckLive, IncNotZero, GetAgain, PutBack, Ref;
    hide StopBegin, StopFinish, MarkGoing, Free;
    match step
    case DoLoad(m) => LoadKeeps(s, m);
    case DoGoLive(m) => GoLiveKeeps(s, m);
    case DoFailInit(m) => FailInitKeeps(s, m);
    case DoDropInit(m) => DropInitKeeps(s, m);
    case DoCheckLive(t, m) => CheckLiveKeeps(s, t, m);
    case DoIncNotZero(t) => IncNotZeroKeeps(s, t);
    case DoGetAgain(m) => GetAgainKeeps(s, m);
    case DoPutBack(m) => PutBackKeeps(s, m);
    case DoRef(a, b, memory) => RefKeeps(s, a, b, memory);
    case DoStopBegin(m) => StopBeginKeeps(s, m);
    case DoStopFinish(force) => StopFinishKeeps(s, force);
    case DoMarkGoing => MarkGoingKeeps(s);
    case DoFree(m) => FreeKeeps(s, m);
  }

  function Run(s: State, steps: seq<Step>): (s': State)
    requires Inv(s)
    ensures Inv(s')
    decreases |steps|
  {
    if steps == [] then s
    else
      TakeKeeps(s, steps[0]);
      Run(Take(s, steps[0]).0, steps[1..])
  }

  lemma EmptyKeeps()
    ensures Inv(EMPTY)
  {
    forall x, y ensures Sourced(EMPTY, x, y) <==> Targeted(EMPTY, x, y) {}
  }

  /**
   * In every state any interleaving reaches, each count is the base reference
   * plus the outstanding holders, and the lists of sources and of targets are
   * the same duplicate-free relation.
   */
  lemma ReachableCounts(steps: seq<Step>, m: nat, a: nat, b: nat)
    ensures Inv(EMPTY)
    ensures var s := Run(EMPTY, steps);
      (m in s.mods ==> Counts(s.mods[m]) && NoDup(s.mods[m].sources) && NoDup(s.mods[m].targets))
      && (Sourced(s, a, b) <==> Targeted(s, a, b))
  {
    EmptyKeeps();
    var s := Run(EMPTY, steps);
    assert Sourced(s, a, b) <==> Targeted(s, a, b);
  }

  // ---- Stopping -----------------------------------------------------------------------------------

  /** A stop that succeeds without force found no holder, and none is left. */
  lemma StopReleases(s: State, m: nat)
    requires Inv(s)
    ensures StopBegin(s, m).1 ==> Released(StopBegin(s, m).0, m)
    ensures s.stop == Lent(m) && StopFinish(s, false).1 ==> Released(StopFinish(s, false).0, m)
    ensures s.stop == Lent(m) ==>
      (StopFinish(s, false).1 <==> s.mods[m].users == 0 && s.mods[m].init == 0)
  {
  }

  /** A stop that finds a holder and is not interrupted leaves all modules as they were; force lets it go on. */
  lemma StopHeld(s: State, m: nat, force: bool)
    requires Inv(s) && s.stop == Idle && m in s.mods && s.mods[m].sources == [] && s.mods[m].status == Live
    requires s.mods[m].users + s.mods[m].init > 0
    ensures var (s1, released) := StopBegin(s, m);
      !released && StopFinish(s1, force) == (s.(stop := if force then Stopped(m) else Idle), force)
  {
    hide NoDup, Sourced, Targeted;
    var s1 := StopBegin(s, m).0;
    assert StopFinish(s1, force).0.mods[m] == s.mods[m];
    assert StopFinish(s1, force).0.mods == s.mods;
  }

  /** No assertion or warning on the counts can fire: neither below zero while stopping, nor on a put. */
  lemma CountsNeverBelowZero(s: State, m: nat)
    requires Inv(s) && m in s.mods
    ensures s.stop == Idle && s.mods[m].status == Live ==> s.mods[m].refcnt - 1 >= 0
    ensures Holders(s.mods[m]) > 0 ==> s.mods[m].refcnt > 0
  {
  }

  lemma ReleasedStays(s: State, step: Step, m: nat)
    requires Inv(s) && Released(s, m) && step != DoFree(m)
    ensures Released(Take(s, step).0, m)
  {
    if step.DoFree? {
      ReleasedAmongFreed(s, step.m, m);
    } else if step.DoStopBegin? || step.DoStopFinish? || step.DoMarkGoing? || step.DoRef? {
      ReleasedUnderMutex(s, step, m);
    } else {
      ReleasedAmongGets(s, step, m);
    }
  }

  lemma ReleasedAmongFreed(s: State, x: nat, m: nat)
    requires Inv(s) && Released(s, m) && x != m
    ensures Released(Free(s, x).0, m)
  {
    if Free(s, x).1 {
      UnuseAllOthers(s, x, m);
      NobodyHolds(s, m);
      hide UnuseAll, Inv;
    }
  }

  lemma NobodyHolds(s: State, m: nat)
    requires Inv(s) && Released(s, m)
    ensures Holders(s.mods[m]) == 0 && s.mods[m].sources == [] && s.mods[m].users == 0 && s.mods[m].init == 0
  {
    hide NoDup, Sourced, Targeted;
  }

  lemma ReleasedUnderMutex(s: State, step: Step, m: nat)
    requires Inv(s) && Released(s, m) && (step.DoStopBegin? || step.DoStopFinish? || step.DoMarkGoing? || step.DoRef?)
    ensures Released(Take(s, step).0, m)
  {
    hide NoDup, Sourced, Targeted;
    NobodyHolds(s, m);
    LiveHasBase(s, m);
  }

  /** A module whose base reference is gone for good can be neither stopped again nor lent. */
  lemma LiveHasBase(s: State, m: nat)
    requires Inv(s) && Released(s, m)
    ensures s.stop == Stopped(m) || s.mods[m].status == Going
  {
    hide NoDup, Sourced, Targeted;
  }

  lemma ReleasedAmongGets(s: State, step: Step, m: nat)
    requires Inv(s) && Released(s, m) && !step.DoFree? && !step.DoStopBegin? && !step.DoStopFinish?
        && !step.DoMarkGoing?
    requires !step.DoRef?
    ensures Released(Take(s, step).0, m)
  {
    NobodyHolds(s, m);
    hide Inv, UnuseAll;
  }

  /**
   * Once a stop without force has succeeded, the count is zero for good: until
   * the module is freed, no thread gets it, not even one that found it live
   * before, and no module starts to use it.
   */
  lemma {:induction false} NoGetAfterStop(s: State, steps: seq<Step>, m: nat, t: nat, a: nat, memory: bool)
    requires Inv(s) && Released(s, m) && DoFree(m) !in steps
    ensures var s' := Run(s, steps);
      Released(s', m)
      && (t in s'.checked && s'.checked[t] == m ==> !IncNotZero(s', t).1)
      && !Ref(s', a, m, memory).1
    decreases |steps|
  {
    if steps == [] {
    } else {
      assert steps[0] in steps;
      TakeKeeps(s, steps[0]);
      ReleasedStays(s, steps[0], m);
      NoGetAfterStop(Take(s, steps[0]).0, steps[1..], m, t, a, memory);
    }
  }

  /** While one thread tries to stop a module, no step of another ends the attempt. */
  lemma {:induction false} LentStays(s: State, steps: seq<Step>, m: nat)
    requires Inv(s) && s.stop == Lent(m) && forall step :: step in steps ==> !step.DoStopFinish?
    ensures Run(s, steps).stop == Lent(m)
    decreases |steps|
  {
    if steps == [] {
    } else {
      assert steps[0] in steps;
      TakeKeeps(s, steps[0]);
      LentStays(Take(s, steps[0]).0, steps[1..], m);
    }
  }

  /** module_refcount. */
  function Refcount(s: State, m: nat): int
    requires m in s.mods
  {
    s.mods[m].refcnt - 1
  }

  /**
   * Read while a stop is being tried, the count of references is one too low:
   * it is the number of holders exactly while the base reference is in place.
   */
  lemma RefcountExactly(s: State, m: nat)
    requires Inv(s) && m in s.mods
    ensures Refcount(s, m) == Holders(s.mods[m])
      <==> s.stop != Lent(m) && !Released(s, m)
    ensures Released(s, m) ==> Refcount(s, m) == -1
  {
  }

  /** A module with one user, read between the two halves of a stop: the count reported is zero. */
  lemma RefcountTooLow() returns (steps: seq<Step>)
    ensures Inv(EMPTY)
    ensures var s := Run(EMPTY, steps);
      s.stop == Lent(1) && 1 in s.mods && Holders(s.mods[1]) == 1 && Refcount(s, 1) == 0
  {
    EmptyKeeps();
    hide Inv, Run, Take, Set;
    var ending := [DoStopBegin(1)] + [];
    var getting := [DoCheckLive(0, 1)] + ([DoIncNotZero(0)] + ending);
    steps := [DoLoad(1)] + ([DoGoLive(1)] + ([DoDropInit(1)] + getting));
    var s1 := RunOne(EMPTY, DoLoad(1), [DoGoLive(1)] + ([DoDropInit(1)] + getting));
    Loaded(EMPTY);
    var s2 := RunOne(s1, DoGoLive(1), [DoDropInit(1)] + getting);
    var s3 := RunOne(s2, DoDropInit(1), getting);
    Initialised(s1, s2, s3);
    var s4 := RunOne(s3, DoCheckLive(0, 1), [DoIncNotZero(0)] + ending);
    var s5 := RunOne(s4, DoIncNotZero(0), ending);
    Got(s3, s4, s5);
    var s6 := RunOne(s5, DoStopBegin(1), []);
    Begun(s5, s6);
    RunNone(s6);
  }

  lemma Loaded(s: State)
    requires Inv(s) && 1 !in s.mods
    ensures var s1 := Take(s, DoLoad(1)).0;
      s1.stop == s.stop && 1 in s1.mods && s1.mods[1] == Mod(Coming, 2, [], [], 1, 1, 0)
  {
    hide Inv;
  }

  lemma Initialised(s1: State, s2: State, s3: State)
    requires Inv(s1) && Inv(s2) && s1.stop == Idle && 1 in s1.mods && s1.mods[1] == Mod(Coming, 2, [], [], 1, 1, 0)
    requires s2 == Take(s1, DoGoLive(1)).0 && s3 == Take(s2, DoDropInit(1)).0
    ensures s3.stop == Idle && 1 in s3.mods && s3.mods[1] == Mod(Live, 1, [], [], 1, 0, 0)
  {
    hide Inv;
  }

  lemma Got(s3: State, s4: State, s5: State)
    requires Inv(s3) && Inv(s4) && s3.stop == Idle && 1 in s3.mods && s3.mods[1] == Mod(Live, 1, [], [], 1, 0, 0)
    requires s4 == Take(s3, DoCheckLive(0, 1)).0 && s5 == Take(s4, DoIncNotZero(0)).0
    ensures s5.stop == Idle && 1 in s5.mods && s5.mods[1] == Mod(Live, 2, [], [], 1, 0, 1)
  {
    hide Inv;
  }

  lemma Begun(s5: State, s6: State)
    requires Inv(s5) && s5.stop == Idle && 1 in s5.mods && s5.mods[1] == Mod(Live, 2, [], [], 1, 0, 1)
    requires s6 == Take(s5, DoStopBegin(1)).0
    ensures s6.stop == Lent(1) && 1 in s6.mods && s6.mods[1] == Mod(Live, 1, [], [], 0, 0, 1)
  {
    hide Inv;
  }

  lemma RunNone(s: State)
    requires Inv(s)
    ensures Run(s, []) == s
  {
  }

  lemma RunOne(s: State, step: Step, rest: seq<Step>) returns (s': State)
    requires Inv(s)
    ensures s' == Take(s, step).0 && Inv(s') && Run(s, [step] + rest) == Run(s', rest)
  {
    hide Inv, Take;
    TakeKeeps(s, step);
    s' := Take(s, step).0;
    assert ([step] + rest)[1..] == rest;
  }

  // ---- Getting and giving back -----------------------------------------------------------------

  /**
   * try_module_get without interruption: it succeeds exactly for a module that
   * is there, is not going, and has its base reference or some holder.
   */
  lemma TryGetExactly(s: State, t: nat, m: nat)
    requires Inv(s) && t !in s.checked
    ensures var s1 := CheckLive(s, t, m).0; var (s2, got) := IncNotZero(s1, t);
      (got <==> m in s.mods && s.mods[m].status != Going && !Released(s, m)
                && (s.stop == Lent(m) ==> s.mods[m].users + s.mods[m].init > 0))
      && (!got ==> s2 == s)
      && (got ==> s2 == Set(s, m, s.mods[m].(refcnt := s.mods[m].refcnt + 1, users := s.mods[m].users + 1)))
  {
    var s1 := CheckLive(s, t, m).0;
    assert s1.checked - {t} == s.checked;
  }

  /** Giving a reference back undoes getting it. */
  lemma PutUndoesGet(s: State, t: nat, m: nat)
    requires Inv(s) && t !in s.checked && IncNotZero(CheckLive(s, t, m).0, t).1
    ensures PutBack(IncNotZero(CheckLive(s, t, m).0, t).0, m) == (s, true)
  {
    var s1 := CheckLive(s, t, m).0;
    assert s1.checked - {t} == s.checked;
    var s2 := IncNotZero(s1, t).0;
    assert PutBack(s2, m).0.mods == s.mods;
  }

  /** Starting to use another module adds exactly that use to both lists, and one reference if it is new. */
  lemma RefCounts(s: State, a: nat, b: nat, memory: bool, x: nat, y: nat)
    requires Inv(s) && Ref(s, a, b, memory).1
    ensures var s' := Ref(s, a, b, memory).0;
      (Sourced(s', x, y) <==> Sourced(s, x, y) || (x == a && y == b))
      && (Targeted(s', x, y) <==> Targeted(s, x, y) || (x == a && y == b))
      && s'.mods.Keys == s.mods.Keys
      && (y in s.mods ==>
            s'.mods[y].refcnt == s.mods[y].refcnt + (if y == b && !Sourced(s, a, b) then 1 else 0)
            && s'.mods[y].users == s.mods[y].users && s'.mods[y].status == s.mods[y].status)
  {
    assert Sourced(s, a, b) <==> Targeted(s, a, b);
  }

  lemma {:induction false} UnuseAllTargets(s: State, a: nat, b: nat)
    requires Inv(s) && a in s.mods && b in s.mods
    ensures var v, v' := s.mods[b], UnuseAll(s, a).mods[b];
      v'.sources == Without(v.sources, a) && v'.refcnt == v.refcnt - (if a in v.sources then 1 else 0)
    decreases |s.mods[a].targets|
  {
    hide Inv, Without, Counts, NoDup;
    if s.mods[a].targets == [] {
      NoTarget(s, a, b);
    } else {
      var x := s.mods[a].targets[0];
      FirstTarget(s, a);
      UnuseKeeps(s, a, x);
      UnuseOne(s, a, x, b);
      UnuseAllTargets(Unuse(s, a, x), a, b);
    }
  }

  lemma NoTarget(s: State, a: nat, b: nat)
    requires Inv(s) && a in s.mods && b in s.mods && s.mods[a].targets == []
    ensures a !in s.mods[b].sources
  {
    assert Sourced(s, a, b) <==> Targeted(s, a, b);
  }

  lemma UnuseOne(s: State, a: nat, x: nat, b: nat)
    requires Inv(s) && Sourced(s, a, x) && b in s.mods
    ensures a in s.mods
    ensures var v, v' := s.mods[b], Unuse(s, a, x).mods[b];
      if b == x then v'.sources == Without(v.sources, a) && v'.refcnt == v.refcnt - 1 && a in v.sources
        && Without(v'.sources, a) == v'.sources
      else v'.sources == v.sources && v'.refcnt == v.refcnt
  {
    Members(s, a, x);
  }

  /** Freeing a module puts each module it used once, and takes it off every list. */
  lemma FreeReleasesTargets(s: State, m: nat, b: nat)
    requires Inv(s) && Free(s, m).1 && b in s.mods && b != m
    ensures var s' := Free(s, m).0;
      m !in s'.mods && b in s'.mods && m !in s'.mods[b].sources
      && s'.mods[b].refcnt == s.mods[b].refcnt - (if m in s.mods[b].sources then 1 else 0)
  {
    UnuseAllTargets(s, m, b);
  }

  // ---- A module's life ------------------------------------------------------------------------

  /** A module that nobody uses, loaded and unloaded again, leaves no trace. */
  lemma LoadThenUnload(s: State, m: nat)
    requires Inv(s) && s.stop == Idle && m !in s.mods
    ensures Run(s, [DoLoad(m), DoGoLive(m), DoDropInit(m), DoStopBegin(m), DoMarkGoing, DoFree(m)]) == s
  {
    hide Inv, Run, Take, Set;
    var ending := [DoStopBegin(m)] + ([DoMarkGoing] + ([DoFree(m)] + []));
    var s1 := RunOne(s, DoLoad(m), [DoGoLive(m)] + ([DoDropInit(m)] + ending));
    var s2 := RunOne(s1, DoGoLive(m), [DoDropInit(m)] + ending);
    var s3 := RunOne(s2, DoDropInit(m), ending);
    Begins(s, s1, s2, s3, m);
    var s4 := RunOne(s3, DoStopBegin(m), [DoMarkGoing] + ([DoFree(m)] + []));
    var s5 := RunOne(s4, DoMarkGoing, [DoFree(m)] + []);
    Ends(s3, s4, s5, m);
    var s6 := RunOne(s5, DoFree(m), []);
    Forgotten(s, s5, s6, m);
    RunNone(s6);
    assert [DoLoad(m), DoGoLive(m), DoDropInit(m), DoStopBegin(m), DoMarkGoing, DoFree(m)]
      == [DoLoad(m)] + ([DoGoLive(m)] + ([DoDropInit(m)] + ending));
  }

  /** Nor does one whose initialisation fails. */
  lemma LoadThenFail(s: State, m: nat)
    requires Inv(s) && s.stop == Idle && m !in s.mods
    ensures Run(s, [DoLoad(m), DoFailInit(m), DoDropInit(m), DoFree(m)]) == s
  {
    hide Inv, Run, Take, Set;
    var s1 := RunOne(s, DoLoad(m), [DoFailInit(m)] + ([DoDropInit(m)] + ([DoFree(m)] + [])));
    var s2 := RunOne(s1, DoFailInit(m), [DoDropInit(m)] + ([DoFree(m)] + []));
    var s3 := RunOne(s2, DoDropInit(m), [DoFree(m)] + []);
    Fails(s, s1, s2, s3, m);
    var s4 := RunOne(s3, DoFree(m), []);
    Forgotten(s, s3, s4, m);
    RunNone(s4);
    assert [DoLoad(m), DoFailInit(m), DoDropInit(m), DoFree(m)]
      == [DoLoad(m)] + ([DoFailInit(m)] + ([DoDropInit(m)] + ([DoFree(m)] + [])));
  }

  /** The state with one more module. */
  ghost predicate With(s: State, s': State, m: nat, v: Mod) {
    m !in s.mods && s' == s.(mods := s.mods[m := v])
  }

  lemma Begins(s: State, s1: State, s2: State, s3: State, m: nat)
    requires Inv(s) && Inv(s1) && Inv(s2) && m !in s.mods
    requires s1 == Take(s, DoLoad(m)).0 && s2 == Take(s1, DoGoLive(m)).0 && s3 == Take(s2, DoDropInit(m)).0
    ensures With(s, s3, m, Mod(Live, 1, [], [], 1, 0, 0))
  {
    hide Inv;
    assert s1.mods[m := s3.mods[m]] == s.mods[m := s3.mods[m]];
  }

  lemma Ends(s3: State, s4: State, s5: State, m: nat)
    requires Inv(s3) && Inv(s4) && s3.stop == Idle
    requires m in s3.mods && s3.mods[m] == Mod(Live, 1, [], [], 1, 0, 0)
    requires s4 == Take(s3, DoStopBegin(m)).0 && s5 == Take(s4, DoMarkGoing).0
    ensures s5 == s3.(mods := s3.mods[m := Mod(Going, 0, [], [], 0, 0, 0)])
  {
    hide Inv;
  }

  lemma Fails(s: State, s1: State, s2: State, s3: State, m: nat)
    requires Inv(s) && Inv(s1) && Inv(s2) && m !in s.mods
    requires s1 == Take(s, DoLoad(m)).0 && s2 == Take(s1, DoFailInit(m)).0 && s3 == Take(s2, DoDropInit(m)).0
    ensures With(s, s3, m, Mod(Going, 1, [], [], 1, 0, 0))
  {
    hide Inv;
    assert s1.mods[m := s3.mods[m]] == s.mods[m := s3.mods[m]];
  }

  lemma Forgotten(s: State, s': State, s'': State, m: nat)
    requires Inv(s) && Inv(s') && s.stop == Idle && m !in s.mods && m in s'.mods
    requires s' == s.(mods := s.mods[m := s'.mods[m]]) && s'.mods[m].status == Going && s'.mods[m].targets == []
    requires s'' == Take(s', DoFree(m)).0
    ensures s'' == s
  {
    hide Inv;
    assert s'.mods - {m} == s.mods;
  }

  /** A module is freed exactly once it is going, by the holder of the mutex; nobody finds it afterwards. */
  lemma FreeExactly(s: State, m: nat)
    requires Inv(s)
    ensures var (s', freed) := Free(s, m);
      (freed <==> s.stop == Idle && m in s.mods && s.mods[m].status == Going)
      && s'.mods.Keys == s.mods.Keys - (if freed then {m} else {}) && (!freed ==> s' == s)
  {
    hide Inv;
  }

  /** A holder gets another reference, and giving it back undoes that; nobody else may. */
  lemma PutUndoesGetAgain(s: State, m: nat)
    requires Inv(s)
    ensures GetAgain(s, m).1 <==> m in s.mods && s.mods[m].users + s.mods[m].init + |s.mods[m].sources| > 0
    ensures GetAgain(s, m).1 ==>
      PutBack(GetAgain(s, m).0, m) == (s, true) && GetAgain(s, m).0.mods[m].refcnt == s.mods[m].refcnt + 1
    ensures !GetAgain(s, m).1 ==> GetAgain(s, m).0 == s
  {
    hide NoDup, Sourced, Targeted;
    if GetAgain(s, m).1 {
      assert PutBack(GetAgain(s, m).0, m).0.mods == s.mods;
    }
  }
}
